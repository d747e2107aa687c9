// What each production builds in the arena: the chains its handler makes of the chains of its
// symbols, and why they denote the production's meaning, own their records and ascend.

module Reductions {
  import opened Grammar
  import opened Derivations
  import opened NodeArena
  import opened Syntax

  /** The abstract syntax a chain of records denotes. */
  function Denote(c: Cell): seq<Ast>
    decreases c, 1
  {
    if c.Nil? then [] else [AstOf(c)] + Denote(c.rest)
  }

  function AstOf(c: Cell): Ast
    requires c.Cell?
    decreases c, 0
  {
    match c.data
    case Pipeline(_) => APipeline(c.flags, Denote(c.first))
    case Command(_, _) => ACommand(c.flags, Denote(c.first), Denote(c.second))
    case Redir(offset, _, wordFlags) => ARedir(c.flags, offset, wordFlags)
    case Arg(offset, wordFlags) => AWord(offset, wordFlags)
    case NoData => AWord(0, 0)
  }

  // ---- Chains under the symbols ----------------------------------------------------------

  predicate IsSingle(c: Cell) {
    c.Cell? && c.rest.Nil?
  }

  predicate IsCommandCell(c: Cell) {
    IsSingle(c) && c.data.Command?
  }

  predicate IsPlainCommand(c: Cell) {
    IsCommandCell(c) && c.flags == {}
  }

  /** The chains under the right-hand side of each production that builds something. */
  predicate CellsFit(r: int, a: Cell, b: Cell, c: Cell, d: Cell) {
    match r
    case 4 => a.Nil? && b.Nil? && c.Cell? && d.Nil?
    case 5 | 6 | 18 => a.Cell? && b.Nil? && c.Nil? && d.Nil?
    case 7 | 8 => a.Cell? && b.Nil? && c.Nil? && IsSingle(d) && d.data.Pipeline?
    case 9 | 11 | 12 => IsCommandCell(a) && b.Nil? && c.Nil? && d.Nil?
    case 10 => IsSingle(a) && a.data.Pipeline? && a.first.Cell? && b.Nil? && c.Nil? && IsCommandCell(d)
    case 13 => IsCommandCell(a) && a.second.Nil? && b.Cell? && c.Nil? && d.Nil?
    case 14 | 15 | 16 => a.Nil? && b.Cell? && c.Nil? && d.Nil?
    case 17 => a.Cell? && b.Nil? && c.Cell? && d.Nil?
    case 19 => a.Cell? && IsSingle(b) && IsPlainCommand(c) && d.Nil?
    case 20 => a.Cell? && IsSingle(b) && c.Nil? && d.Nil?
    case 21 => a.Cell? && b.Nil? && c.Nil? && d.Nil?
    case 22 => IsSingle(a) && IsPlainCommand(b) && c.Nil? && d.Nil?
    case 23 => IsSingle(a) && b.Nil? && c.Nil? && d.Nil?
    case 26 | 28 | 32 | 34 | 35 => IsSingle(a) && a.data.Redir? && b.Nil? && c.Nil? && d.Nil?
    case 27 | 33 => a.Cell? && IsSingle(b) && b.data.Redir? && c.Nil? && d.Nil?
    case 29 => IsPlainCommand(a) && IsSingle(b) && b.data.Redir? && c.Nil? && d.Nil?
    case 31 => IsPlainCommand(a) && b.Nil? && c.Nil? && d.Nil?
    case 36 | 37 | 38 => a.Nil? && IsSingle(b) && b.data.Redir? && c.Nil? && d.Nil?
    case _ => a.Nil? && b.Nil? && c.Nil? && d.Nil?
  }

  predicate WellTagged(c: Cell) {
    c.Cell? ==> !c.data.NoData?
  }

  /** The shapes of the meanings are those of the chains. */
  lemma ShapesOfCells(r: int, a: Cell, b: Cell, c: Cell, d: Cell)
    requires IsRule(r) && ShapesFit(r, Denote(a), Denote(b), Denote(c), Denote(d))
    requires WellTagged(a) && WellTagged(b) && WellTagged(c) && WellTagged(d)
    ensures CellsFit(r, a, b, c, d)
  {
    hide Denote, ShapesFit, CellsFit, WellTagged;
    if r <= 18 { ShapesOfList(r, a, b, c, d); } else { ShapesOfCommand(r, a, b, c, d); }
  }

  lemma ShapesOfList(r: int, a: Cell, b: Cell, c: Cell, d: Cell)
    requires 0 < r <= 18 && ShapesFit(r, Denote(a), Denote(b), Denote(c), Denote(d))
    requires WellTagged(a) && WellTagged(b) && WellTagged(c) && WellTagged(d)
    ensures CellsFit(r, a, b, c, d)
  {
    hide Denote;
    DenoteHead(a);
    DenoteHead(b);
    DenoteHead(c);
    DenoteHead(d);
    if r == 13 { DenoteHead(a.second); }
    if r == 10 { DenoteHead(a.first); }
  }

  lemma ShapesOfCommand(r: int, a: Cell, b: Cell, c: Cell, d: Cell)
    requires IsRule(r) && 18 < r && ShapesFit(r, Denote(a), Denote(b), Denote(c), Denote(d))
    requires WellTagged(a) && WellTagged(b) && WellTagged(c) && WellTagged(d)
    ensures CellsFit(r, a, b, c, d)
  {
    hide Denote;
    DenoteHead(a);
    DenoteHead(b);
    DenoteHead(c);
    DenoteHead(d);
  }

  lemma DenoteHead(c: Cell)
    ensures Denote(c) == [] <==> c.Nil?
    ensures |Denote(c)| == 1 <==> IsSingle(c)
    ensures c.Cell? ==> Denote(c)[0] == AstOf(c)
  {
    assert c.Cell? ==> Denote(c)[0] == AstOf(c) && Denote(c)[1..] == Denote(c.rest);
  }

  // ---- What a reduction builds -----------------------------------------------------------

  /** How many records the handler of `r` allocates. */
  function Allocates(r: int): nat {
    if r == 30 then 2
    else if r == 9 || r == 14 || r == 20 || r == 21 || 23 <= r <= 25 || r == 28 || r == 31 || r == 39 || r == 40 then 1
    else 0
  }

  function ArgCell(index: nat, word: Token): Cell {
    Cell(index, Arg(word.offset, word.flags % WORD_FLAGS), {}, Nil, Nil, Nil)
  }

  function CommandCell(index: nat, args: Cell, redirs: Cell): Cell {
    Cell(index, Command(0, 0), {}, args, redirs, Nil)
  }

  /** The chain that stands for the result of `r`; new records are allocated from `next` on. */
  function Build(r: int, a: Cell, b: Cell, c: Cell, d: Cell, word: Token, next: nat): Cell
    requires IsRule(r) && CellsFit(r, a, b, c, d)
  {
    match r
    case 4 => c
    case 5 | 6 | 11 | 12 | 18 | 26 | 32 | 34 | 35 => a
    case 7 => Append(a, d.(flags := d.flags + {AndIf}))
    case 8 => Append(a, d.(flags := d.flags + {OrIf}))
    case 9 => Cell(next, Pipeline(0), {}, a, Nil, Nil)
    case 10 => a.(first := Append(a.first, d))
    case 13 => a.(second := b)
    case 14 => Cell(next, Command(0, 0), {InSubshell}, b, Nil, Nil)
    case 15 | 16 => b
    case 17 => Append(a, c)
    case 19 => c.(first := Append(b, c.first), second := Append(a, c.second))
    case 20 => CommandCell(next, b, a)
    case 21 => CommandCell(next, Nil, a)
    case 22 => b.(first := Append(a, b.first))
    case 23 => CommandCell(next, a, Nil)
    case 24 | 25 => ArgCell(next, word)
    case 27 | 33 => Append(a, b)
    case 28 => CommandCell(next, Nil, a)
    case 29 => a.(second := Append(a.second, b))
    case 30 => CommandCell(next, ArgCell(next + 1, word), Nil)
    case 31 => a.(first := Append(a.first, ArgCell(next, word)))
    case 36 => b.(flags := b.flags + {RedirIn})
    case 37 => b.(flags := b.flags + {RedirOut})
    case 38 => b.(flags := b.flags + {RedirAppend})
    case 39 => Cell(next, Redir(word.offset, 0, word.flags % WORD_FLAGS), {}, Nil, Nil, Nil)
    case 40 => Cell(next, Redir(word.offset, 0, 0), HereFlags(word), Nil, Nil, Nil)
    case _ => Nil
  }

  lemma {:induction false} DenoteAppend(c: Cell, d: Cell)
    ensures Denote(Append(c, d)) == Denote(c) + Denote(d)
  {
    if c.Cell? { DenoteAppend(c.rest, d); }
  }

  /** The handler's chain denotes the production's meaning. */
  lemma BuildDenotes(r: int, a: Cell, b: Cell, c: Cell, d: Cell, word: Token, next: nat)
    requires IsRule(r) && ShapesFit(r, Denote(a), Denote(b), Denote(c), Denote(d)) && CellsFit(r, a, b, c, d)
    ensures Denote(Build(r, a, b, c, d, word, next)) == Combine(r, Denote(a), Denote(b), Denote(c), Denote(d), word)
  {
    hide ShapesFit, CellsFit, Build, Combine, Denote;
    if r <= 18 {
      ListDenotes(r, a, b, c, d, word, next);
    } else {
      CommandDenotes(r, a, b, c, d, word, next);
    }
  }

  lemma ListDenotes(r: int, a: Cell, b: Cell, c: Cell, d: Cell, word: Token, next: nat)
    requires 0 < r <= 18 && ShapesFit(r, Denote(a), Denote(b), Denote(c), Denote(d)) && CellsFit(r, a, b, c, d)
    ensures Denote(Build(r, a, b, c, d, word, next)) == Combine(r, Denote(a), Denote(b), Denote(c), Denote(d), word)
  {
    match r
    case 7 => DenoteAppend(a, d.(flags := d.flags + {AndIf})); assert {} + {AndIf} == {AndIf};
    case 8 => DenoteAppend(a, d.(flags := d.flags + {OrIf})); assert {} + {OrIf} == {OrIf};
    case 10 => DenoteAppend(a.first, d);
    case 17 => DenoteAppend(a, c);
    case _ =>
  }

  lemma CommandDenotes(r: int, a: Cell, b: Cell, c: Cell, d: Cell, word: Token, next: nat)
    requires IsRule(r) && 18 < r && CellsFit(r, a, b, c, d)
    requires ShapesFit(r, Denote(a), Denote(b), Denote(c), Denote(d))
    ensures Denote(Build(r, a, b, c, d, word, next)) == Combine(r, Denote(a), Denote(b), Denote(c), Denote(d), word)
  {
    match r
    case 19 => DenoteAppend(b, c.first); DenoteAppend(a, c.second);
    case 22 => DenoteAppend(a, b.first);
    case 27 | 33 => DenoteAppend(a, b);
    case 29 => DenoteAppend(a.second, b);
    case 31 =>
      DenoteAppend(a.first, ArgCell(next, word));
      assert Denote(ArgCell(next, word)) == [WordOf(word)];
    case 30 => assert Denote(ArgCell(next + 1, word)) == [WordOf(word)];
    case 36 => assert {} + {RedirIn} == {RedirIn};
    case 37 => assert {} + {RedirOut} == {RedirOut};
    case 38 => assert {} + {RedirAppend} == {RedirAppend};
    case _ =>
  }

  /** The productions whose handler appends one chain to another. */
  predicate Appends(r: int) {
    r == 7 || r == 8 || r == 10 || r == 17 || r == 19 || r == 22 || r == 27 || r == 29 || r == 31 || r == 33
  }

  lemma ListUses(r: int, a: Cell, b: Cell, c: Cell, d: Cell, word: Token, next: nat, i: nat)
    requires (r == 7 || r == 8 || r == 10 || r == 17) && CellsFit(r, a, b, c, d)
    ensures Uses(Build(r, a, b, c, d, word, next), i) == Uses(a, i) + Uses(b, i) + Uses(c, i) + Uses(d, i)
    ensures Allocates(r) == 0
  {
    match r
    case 7 => AppendUses(a, d.(flags := d.flags + {AndIf}), i);
    case 8 => AppendUses(a, d.(flags := d.flags + {OrIf}), i);
    case 10 => AppendUses(a.first, d, i);
    case 17 => AppendUses(a, c, i);
  }

  lemma CommandUses(r: int, a: Cell, b: Cell, c: Cell, d: Cell, word: Token, next: nat, i: nat)
    requires Appends(r) && 19 < r && CellsFit(r, a, b, c, d)
    ensures Uses(Build(r, a, b, c, d, word, next), i)
         == Uses(a, i) + Uses(b, i) + Uses(c, i) + Uses(d, i) + (if next <= i < next + Allocates(r) then 1 else 0)
  {
    match r
    case 22 => AppendUses(a, b.first, i);
    case 27 | 33 => AppendUses(a, b, i);
    case 29 => AppendUses(a.second, b, i);
    case 31 => AppendUses(a.first, ArgCell(next, word), i);
  }

  lemma PrefixUses(a: Cell, b: Cell, c: Cell, d: Cell, word: Token, next: nat, i: nat)
    requires CellsFit(19, a, b, c, d)
    ensures Uses(Build(19, a, b, c, d, word, next), i) == Uses(a, i) + Uses(b, i) + Uses(c, i) + Uses(d, i)
    ensures Allocates(19) == 0
  {
    AppendUses(b, c.first, i);
    AppendUses(a, c.second, i);
  }

  lemma AllocatingUses(r: int, a: Cell, b: Cell, c: Cell, d: Cell, word: Token, next: nat, i: nat)
    requires IsRule(r) && CellsFit(r, a, b, c, d) && !Appends(r)
    ensures Uses(Build(r, a, b, c, d, word, next), i)
         == Uses(a, i) + Uses(b, i) + Uses(c, i) + Uses(d, i) + (if next <= i < next + Allocates(r) then 1 else 0)
  {
  }

  /** The handler's chain uses the records of its symbols and the allocated ones, nothing else. */
  lemma BuildUses(r: int, a: Cell, b: Cell, c: Cell, d: Cell, word: Token, next: nat, i: nat)
    requires IsRule(r) && CellsFit(r, a, b, c, d)
    ensures Uses(Build(r, a, b, c, d, word, next), i)
         == Uses(a, i) + Uses(b, i) + Uses(c, i) + Uses(d, i) + (if next <= i < next + Allocates(r) then 1 else 0)
  {
    hide Uses, Build, CellsFit;
    if r == 19 {
      PrefixUses(a, b, c, d, word, next, i);
    } else if Appends(r) && r < 19 {
      ListUses(r, a, b, c, d, word, next, i);
    } else if Appends(r) {
      CommandUses(r, a, b, c, d, word, next, i);
    } else {
      AllocatingUses(r, a, b, c, d, word, next, i);
    }
  }

  /** The handler's chain owns the records of its symbols followed by the allocated ones. */
  lemma BuildOwns(r: int, a: Cell, b: Cell, c: Cell, d: Cell, word: Token, lo: nat, l1: nat, l2: nat, l3: nat, hi: nat)
    requires IsRule(r) && CellsFit(r, a, b, c, d)
    requires Owns(a, lo, l1) && Owns(b, l1, l2) && Owns(c, l2, l3) && Owns(d, l3, hi)
    ensures Owns(Build(r, a, b, c, d, word, hi), lo, hi + Allocates(r))
  {
    hide Build, CellsFit, Uses, Allocates;
    forall i: nat ensures Uses(Build(r, a, b, c, d, word, hi), i) == if lo <= i < hi + Allocates(r) then 1 else 0 {
      BuildUses(r, a, b, c, d, word, hi, i);
    }
  }

  lemma UsedIsOwned(c: Cell, lo: nat, hi: nat, i: nat)
    requires Owns(c, lo, hi) && Uses(c, i) > 0
    ensures lo <= i < hi && Uses(c, i) == 1
  {
  }

  /** The ends of an owned chain, and of the chains hung on its first record, are in its interval. */
  lemma OwnedIndices(c: Cell, lo: nat, hi: nat)
    requires Owns(c, lo, hi) && c.Cell?
    ensures lo <= c.index < hi && lo <= TailIndex(c) < hi
    ensures c.first.Cell? ==> lo <= c.first.index < hi && lo <= TailIndex(c.first) < hi
    ensures c.second.Cell? ==> lo <= c.second.index < hi && lo <= TailIndex(c.second) < hi
  {
    hide Owns;
    HeadIsUsed(c);
    TailIsUsed(c);
    UsedIsOwned(c, lo, hi, c.index);
    UsedIsOwned(c, lo, hi, TailIndex(c));
    if c.first.Cell? {
      HeadIsUsed(c.first);
      TailIsUsed(c.first);
      UsedIsOwned(c, lo, hi, c.first.index);
      UsedIsOwned(c, lo, hi, TailIndex(c.first));
    }
    if c.second.Cell? {
      HeadIsUsed(c.second);
      TailIsUsed(c.second);
      UsedIsOwned(c, lo, hi, c.second.index);
      UsedIsOwned(c, lo, hi, TailIndex(c.second));
    }
  }

  lemma SubshellIsAbove(c: Cell, lo: nat, hi: nat, top: nat)
    requires Owns(c, lo, hi) && hi <= top
    ensures forall i: nat :: Uses(c, i) > 0 ==> i < top
  {
  }

  lemma ListAscends(r: int, a: Cell, b: Cell, c: Cell, d: Cell, word: Token, next: nat)
    requires (r == 7 || r == 8 || r == 10 || r == 17) && CellsFit(r, a, b, c, d)
    requires Ascending(a) && Ascending(b) && Ascending(c) && Ascending(d)
    requires a.Cell? && c.Cell? ==> TailIndex(a) < c.index
    requires a.Cell? && a.first.Cell? && d.Cell? ==> TailIndex(a.first) < d.index
    requires a.Cell? && d.Cell? ==> TailIndex(a) < d.index
    ensures Ascending(Build(r, a, b, c, d, word, next))
  {
    hide Uses, TailIndex;
    match r
    case 7 => AppendAscends(a, d.(flags := d.flags + {AndIf}));
    case 8 => AppendAscends(a, d.(flags := d.flags + {OrIf}));
    case 10 => AppendAscends(a.first, d);
    case 17 => AppendAscends(a, c);
  }

  lemma CommandAscends(r: int, a: Cell, b: Cell, c: Cell, d: Cell, word: Token, next: nat)
    requires Appends(r) && 17 < r && CellsFit(r, a, b, c, d)
    requires Ascending(a) && Ascending(b) && Ascending(c) && Ascending(d)
    requires a.Cell? && b.Cell? ==> TailIndex(a) < b.index && (b.first.Cell? ==> TailIndex(a) < b.first.index)
    requires a.Cell? && c.Cell? && c.second.Cell? ==> TailIndex(a) < c.second.index
    requires b.Cell? && c.Cell? && c.first.Cell? ==> TailIndex(b) < c.first.index
    requires a.Cell? && a.second.Cell? && b.Cell? ==> TailIndex(a.second) < b.index
    requires a.Cell? && a.first.Cell? ==> TailIndex(a.first) < next
    ensures Ascending(Build(r, a, b, c, d, word, next))
  {
    hide Uses, TailIndex;
    match r
    case 19 => AppendAscends(b, c.first); AppendAscends(a, c.second);
    case 22 => AppendAscends(a, b.first);
    case 27 | 33 => AppendAscends(a, b);
    case 29 => AppendAscends(a.second, b);
    case 31 => AppendAscends(a.first, ArgCell(next, word));
  }

  lemma AllocatingAscends(r: int, a: Cell, b: Cell, c: Cell, d: Cell, word: Token, next: nat)
    requires IsRule(r) && CellsFit(r, a, b, c, d) && !Appends(r)
    requires Ascending(a) && Ascending(b) && Ascending(c) && Ascending(d)
    requires r == 14 ==> forall i: nat :: Uses(b, i) > 0 ==> i < next
    ensures Ascending(Build(r, a, b, c, d, word, next))
  {
    hide Uses;
  }

  /** The handler's chain still only links to larger indices. */
  lemma BuildAscends(r: int, a: Cell, b: Cell, c: Cell, d: Cell, word: Token, lo: nat, l1: nat, l2: nat, l3: nat,
                     hi: nat)
    requires IsRule(r) && CellsFit(r, a, b, c, d)
    requires lo <= l1 <= l2 <= l3 <= hi
    requires Owns(a, lo, l1) && Owns(b, l1, l2) && Owns(c, l2, l3) && Owns(d, l3, hi)
    requires Ascending(a) && Ascending(b) && Ascending(c) && Ascending(d)
    ensures Ascending(Build(r, a, b, c, d, word, hi))
  {
    hide Uses, TailIndex, Owns, CellsFit, Build, Ascending;
    if a.Cell? { OwnedIndices(a, lo, l1); }
    if b.Cell? { OwnedIndices(b, l1, l2); }
    if c.Cell? { OwnedIndices(c, l2, l3); }
    if d.Cell? { OwnedIndices(d, l3, hi); }
    SubshellIsAbove(b, l1, l2, hi);
    if Appends(r) && r <= 17 {
      ListAscends(r, a, b, c, d, word, hi);
    } else if Appends(r) {
      CommandAscends(r, a, b, c, d, word, hi);
    } else {
      AllocatingAscends(r, a, b, c, d, word, hi);
    }
  }
}
