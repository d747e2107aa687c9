// Whose body is where: every here-document record that was read carries the descriptor of the
// body that was read for its own delimiter.

module HereDescriptors {
  import opened Grammar
  import opened ParseTables
  import opened Derivations
  import opened NodeArena
  import opened Syntax
  import opened Reductions
  import opened Context
  import opened NodeOps
  import opened Handlers
  import opened LrMachine
  import opened ParserInvariant

  /** The here-documents of the chain carry their own body; `delims` lists whose body each is. */
  predicate Served(c: Cell, delims: seq<nat>) {
    c.Cell? ==>
      && (c.data.Redir? && RedirHere in c.flags ==> 0 <= c.data.fd < |delims| && delims[c.data.fd] == c.data.offset)
      && Served(c.first, delims) && Served(c.second, delims) && Served(c.rest, delims)
  }

  lemma {:induction false} AppendServed(c: Cell, d: Cell, delims: seq<nat>)
    requires Served(c, delims) && Served(d, delims)
    ensures Served(Append(c, d), delims)
  {
    if c.Cell? { AppendServed(c.rest, d, delims); }
  }

  /** Only the here-document production makes a record that is still to be served. */
  lemma BuildServed(r: int, a: Cell, b: Cell, c: Cell, d: Cell, word: Token, next: nat, delims: seq<nat>)
    requires IsRule(r) && r != 40 && CellsFit(r, a, b, c, d)
    requires Served(a, delims) && Served(b, delims) && Served(c, delims) && Served(d, delims)
    ensures Served(Build(r, a, b, c, d, word, next), delims)
  {
    match r
    case 7 => AppendServed(a, d.(flags := d.flags + {AndIf}), delims);
    case 8 => AppendServed(a, d.(flags := d.flags + {OrIf}), delims);
    case 10 => AppendServed(a.first, d, delims);
    case 17 => AppendServed(a, c, delims);
    case 19 => AppendServed(b, c.first, delims); AppendServed(a, c.second, delims);
    case 22 => AppendServed(a, b.first, delims);
    case 27 | 33 => AppendServed(a, b, delims);
    case 29 => AppendServed(a.second, b, delims);
    case 31 => AppendServed(a.first, ArgCell(next, word), delims);
    case _ =>
  }

  lemma {:induction false} ServedGrows(c: Cell, delims: seq<nat>, d: nat)
    requires Served(c, delims)
    ensures Served(c, delims + [d])
  {
    if c.Cell? {
      ServedGrows(c.first, delims, d);
      ServedGrows(c.second, delims, d);
      ServedGrows(c.rest, delims, d);
    }
  }

  // ---- The here-documents of a derivation ------------------------------------------------

  /** The delimiters of a derivation's here-documents, by string offset, in source order. */
  function HereDocs(t: Tree): seq<nat>
    decreases t, 0
  {
    match t
    case Leaf(_) => []
    case Branch(r, kids) => HereDocsAll(kids) + (if r == 40 then [LastToken(YieldAll(kids)).offset] else [])
  }

  function HereDocsAll(ts: seq<Tree>): seq<nat>
    decreases ts, 1
  {
    if ts == [] then [] else HereDocs(ts[0]) + HereDocsAll(ts[1..])
  }

  lemma {:induction false} HereDocsConcat(a: seq<Tree>, b: seq<Tree>)
    ensures HereDocsAll(a + b) == HereDocsAll(a) + HereDocsAll(b)
  {
    if a == [] {
      assert a + b == b;
    } else {
      assert (a + b)[1..] == a[1..] + b;
      HereDocsConcat(a[1..], b);
    }
  }

  lemma HereDocsSingle(t: Tree)
    ensures HereDocsAll([t]) == HereDocs(t)
  {
  }

  lemma ShiftHereDocs(stack: seq<Frame>, f: Frame)
    requires f.tree.Leaf?
    ensures HereDocsAll(Trees(stack + [f])) == HereDocsAll(Trees(stack))
  {
    assert Trees(stack + [f]) == Trees(stack) + [f.tree];
    HereDocsConcat(Trees(stack), [f.tree]);
    HereDocsSingle(f.tree);
  }

  /** Only reducing a here-document adds one. */
  lemma ReduceHereDocs(stack: seq<Frame>, r: int)
    requires IsRule(r) && RhsLen(r) <= |stack| && IsState(Top(Base(stack, r)))
    ensures HereDocsAll(Trees(ReduceStack(stack, r))) == HereDocsAll(Trees(stack)) +
              (if r == 40 then [LastToken(YieldAll(Reduced(stack, r).kids)).offset] else [])
  {
    hide RhsLen, YieldAll;
    var base, popped := Base(stack, r), stack[|stack| - RhsLen(r)..];
    assert Trees(stack) == Trees(base) + Trees(popped);
    HereDocsConcat(Trees(base), Trees(popped));
    assert Trees(ReduceStack(stack, r)) == Trees(base) + [Reduced(stack, r)];
    HereDocsConcat(Trees(base), [Reduced(stack, r)]);
    HereDocsSingle(Reduced(stack, r));
  }

  /** All here-documents below the first `n` entries are served. */
  ghost predicate StackServed(shadow: seq<Shadow>, n: int, delims: seq<nat>) {
    n <= |shadow| && forall i :: 0 <= i < n ==> Served(shadow[i].chain, delims)
  }

  lemma StackServedGrows(shadow: seq<Shadow>, n: int, delims: seq<nat>, d: nat)
    requires StackServed(shadow, n, delims)
    ensures StackServed(shadow, n, delims + [d])
  {
    forall i | 0 <= i < n ensures Served(shadow[i].chain, delims + [d]) {
      ServedGrows(shadow[i].chain, delims, d);
    }
  }

  lemma ReduceServed(shadow: seq<Shadow>, r: int, from: nat, to: nat, delims: seq<nat>)
    requires IsRule(r) && r != 40 && RhsLen(r) <= |shadow| && StackServed(shadow, |shadow|, delims)
    requires var k := KidsOf(shadow, r); CellsFit(r, k.a, k.b, k.c, k.d)
    ensures StackServed(shadow[..|shadow| - RhsLen(r)] + [ResultShadow(shadow, r, from, to)], |shadow| - RhsLen(r) + 1,
      delims)
  {
    hide RhsLen, CellsFit, Build, KidTrees;
    var k := KidsOf(shadow, r);
    BuildServed(r, k.a, k.b, k.c, k.d, k.word, from, delims);
  }

  /** The record made for a delimiter, alone in its chain. */
  predicate IsHereCell(c: Cell, word: Token) {
    c.Cell? && c.data.Redir? && c.data.offset == word.offset && c.flags == HereFlags(word) && c.first.Nil?
      && c.second.Nil? && c.rest.Nil?
  }

  /** The here-document's record, with its descriptor. */
  function WithFd(c: Cell, fd: int): Cell
    requires c.Cell? && c.data.Redir?
  {
    c.(data := c.data.(fd := fd))
  }

  lemma FdServes(c: Cell, word: Token, delims: seq<nat>)
    requires IsHereCell(c, word)
    ensures Served(WithFd(c, |delims|), delims + [word.offset])
  {
  }

  /** The top entry's record gets its descriptor; nothing else changes. */
  lemma FdKeepsStack(stack: seq<Entry>, nodes: seq<Node>, tokens: seq<TokenRecord>, shadow: seq<Shadow>, word: Token,
                     fd: int)
    requires StackOk(stack, nodes, tokens, shadow, false) && shadow != []
    requires IsHereCell(shadow[|shadow| - 1].chain, word)
    ensures var top := shadow[|shadow| - 1]; var i := top.chain.index;
      && |stack| == |shadow| + 1 && stack[|shadow|].node == i < |nodes|
      && nodes[i] == Node(top.chain.data, 0, top.chain.flags)
      && StackOk(stack, nodes[i := Node(top.chain.data.(fd := fd), 0, top.chain.flags)], tokens,
                 shadow[|shadow| - 1 := top.(chain := WithFd(top.chain, fd))], false)
  {
    hide IsPath, EntryOk, Owns, Owners, Words, LiveWords, Meaning, Live, IsDerivation, TokenOk, StackOk, Mark;
    var n := |shadow| - 1;
    var top := shadow[n];
    StackBottom(stack, nodes, tokens, shadow, false);
    StackEntry(stack, nodes, tokens, shadow, false, n);
    EntryWithFd(nodes, tokens, stack[n + 1], top, word, fd);
    var i := top.chain.index;
    var nodes' := nodes[i := Node(top.chain.data.(fd := fd), 0, top.chain.flags)];
    var shadow' := shadow[n := top.(chain := WithFd(top.chain, fd))];
    MarksArePositive(stack, nodes, tokens, shadow, false, n);
    forall k | 0 <= k < |shadow'| ensures EntryOk(nodes', tokens, stack[k + 1], shadow'[k], false)
      && shadow'[k].lo == Mark(shadow', k) {
      SameMarks(shadow, shadow', k);
      StackEntry(stack, nodes, tokens, shadow, false, k);
      if k < n {
        MarksUpTo(stack, nodes, tokens, shadow, k + 1, n);
        EntryBelow(stack, nodes, tokens, shadow, k, nodes', top.lo);
      }
    }
    assert Frames(stack, shadow') == Frames(stack, shadow);
    SameMarks(shadow, shadow', |shadow|);
    NewStackOk(stack, nodes', tokens, shadow', false);
  }

  lemma SameMarks(shadow: seq<Shadow>, shadow': seq<Shadow>, i: nat)
    requires i <= |shadow| == |shadow'| && forall k :: 0 <= k < |shadow| ==> shadow[k].hi == shadow'[k].hi
    ensures Mark(shadow, i) == Mark(shadow', i)
  {
  }

  lemma EntryWithFd(nodes: seq<Node>, tokens: seq<TokenRecord>, e: Entry, s: Shadow, word: Token, fd: int)
    requires EntryOk(nodes, tokens, e, s, false) && IsHereCell(s.chain, word)
    ensures var i := s.chain.index;
      && s.lo <= i < s.hi <= |nodes| && e.node == i && nodes[i] == Node(s.chain.data, 0, s.chain.flags)
      && EntryOk(nodes[i := Node(s.chain.data.(fd := fd), 0, s.chain.flags)], tokens, e,
        s.(chain := WithFd(s.chain, fd)), false)
      && Relinked(nodes, nodes[i := Node(s.chain.data.(fd := fd), 0, s.chain.flags)], s.lo)
  {
    hide IsDerivation, TokenOk, Words, LiveWords, Meaning, Live, IsToken;
    OwnedIndices(s.chain, s.lo, s.hi);
    var i := s.chain.index;
    var nodes' := nodes[i := Node(s.chain.data.(fd := fd), 0, s.chain.flags)];
    assert nodes[i] == Linked(s.chain);
    OwnersFrame(nodes, nodes', s.lo, s.hi);
    assert forall k: nat :: Uses(WithFd(s.chain, fd), k) == Uses(s.chain, k);
    assert Denote(WithFd(s.chain, fd)) == Denote(s.chain);
    assert Holds(nodes', WithFd(s.chain, fd));
    assert Owns(WithFd(s.chain, fd), s.lo, s.hi);
    assert Ascending(WithFd(s.chain, fd));
    assert Relinked(nodes, nodes', s.lo);
    assert ChainOk(nodes', s.(chain := WithFd(s.chain, fd)), e.node, Live(s.tree), LiveWords(s.tree));
  }
}
