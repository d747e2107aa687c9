// Running a list: the loops that walk the records of an AND-OR list in the arena.

module ExecuteList {
  import opened NodeArena
  import opened Syntax
  import opened Reductions
  import opened Context
  import opened AndOr

  /** Every record of the chain is a pipeline. */
  predicate ArePipelines(c: Cell) {
    c.Cell? ==> c.data.Pipeline? && ArePipelines(c.rest)
  }

  /** The indices of a chain's records. */
  function Indices(c: Cell): seq<nat> {
    if c.Nil? then [] else [c.index] + Indices(c.rest)
  }

  /** How each record of the chain hangs on the one before. */
  ghost function ChainLinks(c: Cell): (ls: seq<Link>)
    requires ArePipelines(c)
    ensures |ls| == |Indices(c)|
  {
    if c.Nil? then [] else [LinkOf(AstOf(c))] + ChainLinks(c.rest)
  }

  /** The links of the records are those of the list the chain denotes. */
  lemma {:induction false} LinksOfChain(c: Cell)
    requires ArePipelines(c)
    ensures |Denote(c)| == |Indices(c)| && forall i :: 0 <= i < |Denote(c)| ==> Denote(c)[i].APipeline?
    ensures ChainLinks(c) == Links(Denote(c))
  {
    if c.Cell? {
      LinksOfChain(c.rest);
      assert Denote(c)[1..] == Denote(c.rest);
    }
  }

  /** The chain without its first `n` records. */
  ghost function Drop(c: Cell, n: nat): Cell {
    if n == 0 || c.Nil? then c else Drop(c.rest, n - 1)
  }

  lemma {:induction false} DropKeeps(nodes: seq<Node>, c: Cell, n: nat)
    requires Holds(nodes, c) && ArePipelines(c) && AllOneFlag(c) && n <= |Indices(c)|
    ensures Holds(nodes, Drop(c, n)) && ArePipelines(Drop(c, n)) && AllOneFlag(Drop(c, n))
    ensures ChainLinks(Drop(c, n)) == ChainLinks(c)[n..] && Indices(Drop(c, n)) == Indices(c)[n..]
  {
    if n > 0 { DropKeeps(nodes, c.rest, n - 1); }
  }

  ghost predicate IsList(nodes: seq<Node>, chain: Cell) {
    nodes != [] && nodes[0] == SENTINEL && Holds(nodes, chain) && ArePipelines(chain)
  }

  /** One pipeline; what it leaves is up to the commands it runs, but nothing clears the flag to exit. */
  method ExecutePipeline(c: Ctx, idx: nat, outcome: nat -> Status) returns (code: int)
    modifies c`shouldExit, c`ran
    ensures Status(code, c.shouldExit) == After(Status(c.returnStatus, old(c.shouldExit)), outcome(idx))
    ensures c.ran == old(c.ran) + [idx]
  {
    c.ran := c.ran + [idx];
    if outcome(idx).exit {
      c.shouldExit := true;
    }
    code := outcome(idx).code;
  }

  /** The skip loop stops at the next record with the flag, or behind the last one. */
  method GetNextWith(nodes: seq<Node>, currentIdx: nat, flag: NodeFlag, ghost chain: Cell)
    returns (idx: nat, ghost n: nat)
    requires IsList(nodes, chain) && chain.Cell? && currentIdx == chain.index
    requires flag == AndIf || flag == OrIf
    requires AllOneFlag(chain)
    ensures idx == Head(Drop(chain, SkipTo(ChainLinks(chain), 1, if flag == OrIf then OnFailure else OnSuccess)))
    ensures n == SkipTo(ChainLinks(chain), 1, if flag == OrIf then OnFailure else OnSuccess) <= |Indices(chain)|
  {
    idx := nodes[currentIdx].next;
    n := 1;
    ghost var link := if flag == OrIf then OnFailure else OnSuccess;
    while nodes[idx].data.Pipeline? && flag !in nodes[idx].flags
      invariant 1 <= n <= |Indices(chain)| && idx == Head(Drop(chain, n))
      invariant SkipTo(ChainLinks(chain), 1, link) == SkipTo(ChainLinks(chain), n, link)
      invariant Holds(nodes, Drop(chain, n)) && ArePipelines(Drop(chain, n)) && AllOneFlag(Drop(chain, n))
      invariant ChainLinks(Drop(chain, n)) == ChainLinks(chain)[n..]
      decreases |Indices(chain)| - n
    {
      DropNext(chain, n);
      DropKeeps(nodes, chain, n + 1);
      idx := nodes[idx].next;
      n := n + 1;
    }
  }

  /** No record carries both conditional flags. */
  predicate AllOneFlag(c: Cell) {
    c.Cell? ==> !(AndIf in c.flags && OrIf in c.flags) && AllOneFlag(c.rest)
  }

  lemma {:induction false} DropNext(c: Cell, n: nat)
    requires Drop(c, n).Cell?
    ensures Drop(c, n + 1) == Drop(c, n).rest
  {
    if n > 0 && c.Cell? { DropNext(c.rest, n - 1); }
  }

  /** The record to run next behind status `code`; `n` is how far it is. */
  method GetNext(nodes: seq<Node>, currentIdx: nat, code: int, ghost chain: Cell) returns (idx: nat, ghost n: nat)
    requires chain.Cell? && ArePipelines(chain) && IsList(nodes, chain.rest) && AllOneFlag(chain.rest)
    requires currentIdx < |nodes| && nodes[currentIdx].next == Head(chain.rest)
    ensures idx == Head(Drop(chain, NextToRun(ChainLinks(chain), 0, code)))
    ensures n == NextToRun(ChainLinks(chain), 0, code) <= |Indices(chain)|
    ensures chain.rest.Cell? && AndIf in chain.rest.flags ==> (n == 1 <==> code == 0)
    ensures chain.rest.Cell? && OrIf in chain.rest.flags ==> (n == 1 <==> code != 0)
    ensures chain.rest.Cell? && AndIf !in chain.rest.flags && OrIf !in chain.rest.flags ==> n == 1
  {
    if chain.rest.Cell? { NextIsDecided(ChainLinks(chain), 0, code); }
    idx := nodes[currentIdx].next;
    n := 1;
    DropNone(chain.rest);
    var node := nodes[idx];
    if !node.data.Pipeline? || (AndIf !in node.flags && OrIf !in node.flags)
      || (AndIf in node.flags && code == 0) || (OrIf in node.flags && code != 0) {
      return;
    }
    ghost var m;
    if AndIf in node.flags {
      idx, m := GetNextWith(nodes, idx, OrIf, chain.rest);
    } else {
      idx, m := GetNextWith(nodes, idx, AndIf, chain.rest);
    }
    n := m + 1;
    SkipShift(ChainLinks(chain), 1, if AndIf in node.flags then OnFailure else OnSuccess);
  }

  lemma {:induction false} SkipShift(ls: seq<Link>, i: nat, link: Link)
    requires ls != [] && i < |ls|
    ensures SkipTo(ls, i + 1, link) == SkipTo(ls[1..], i, link) + 1
    decreases |ls| - i
  {
    if i + 1 < |ls| && ls[i + 1] != link { SkipShift(ls, i + 1, link); }
  }

  /** A list's first record is a pipeline unless the list has ended. */
  lemma AtRecord(nodes: seq<Node>, chain: Cell, i: nat)
    requires i <= |Indices(chain)| && IsList(nodes, Drop(chain, i)) && ArePipelines(chain)
    requires Indices(Drop(chain, i)) == Indices(chain)[i..]
    ensures Head(Drop(chain, i)) < |nodes|
    ensures nodes[Head(Drop(chain, i))].data.Pipeline? <==> Drop(chain, i).Cell?
    ensures Drop(chain, i).Cell? <==> i < |Indices(chain)|
    ensures Drop(chain, i).Cell? ==> Drop(chain, i).index == Indices(chain)[i]
    ensures Drop(chain, i).Cell? ==>
              && nodes[Drop(chain, i).index].next == Head(Drop(chain, i).rest) && IsList(nodes, Drop(chain, i).rest)
              && (AllOneFlag(Drop(chain, i)) ==> AllOneFlag(Drop(chain, i).rest))
  {
    assert Drop(chain, i).Cell? ==> Indices(chain)[i..][0] == Indices(chain)[i];
  }

  lemma WalkStep(ls: seq<Link>, ids: seq<nat>, outcome: nat -> Status, i: nat, before: Status, trace: seq<nat>)
    requires i < |ls| == |ids|
    ensures var s := After(before, outcome(ids[i]));
      Prepend(trace, Walk(ls, ids, outcome, i, before)) ==
      if s.exit then Run(trace + [ids[i]], s)
        else Prepend(trace + [ids[i]], Walk(ls, ids, outcome, NextToRun(ls, i, s.code), s))
  {
    var s := After(before, outcome(ids[i]));
    if !s.exit {
      var rest := Walk(ls, ids, outcome, NextToRun(ls, i, s.code), s);
      assert trace + ([ids[i]] + rest.trace) == trace + [ids[i]] + rest.trace;
    }
  }

  /** Runs the list: exactly the pipelines the walk over its links runs. */
  method ExecuteList(c: Ctx, headIdx: nat, outcome: nat -> Status, ghost chain: Cell)
    requires IsList(c.nodes, chain) && headIdx == Head(chain) && AllOneFlag(chain)
    modifies c`returnStatus, c`shouldExit, c`ran
    ensures var run := Walk(ChainLinks(chain), Indices(chain), outcome, 0,
      Status(old(c.returnStatus), old(c.shouldExit)));
      c.ran == old(c.ran) + run.trace && Status(c.returnStatus, c.shouldExit) == run.status
  {
    hide Holds, ArePipelines, AllOneFlag, Drop, ChainLinks, Indices, NextToRun, Walk;
    var idx := headIdx;
    ghost var i, ls, ids := 0, ChainLinks(chain), Indices(chain);
    ghost var whole := Walk(ls, ids, outcome, 0, Status(c.returnStatus, c.shouldExit));
    ghost var trace := [];
    DropKeeps(c.nodes, chain, 0);
    DropNone(chain);
    AtRecord(c.nodes, chain, 0);
    while c.nodes[idx].data.Pipeline?
      invariant i <= |ids| && idx == Head(Drop(chain, i)) < |c.nodes| && IsList(c.nodes, Drop(chain, i))
      invariant AllOneFlag(Drop(chain, i))
      invariant ChainLinks(Drop(chain, i)) == ls[i..] && Indices(Drop(chain, i)) == ids[i..]
      invariant c.ran == old(c.ran) + trace
      invariant whole == Prepend(trace, Walk(ls, ids, outcome, i, Status(c.returnStatus, c.shouldExit)))
      decreases |ids| - i
    {
      AtRecord(c.nodes, chain, i);
      WalkStep(ls, ids, outcome, i, Status(c.returnStatus, c.shouldExit), trace);
      trace := trace + [ids[i]];
      var code := ExecutePipeline(c, idx, outcome);
      c.returnStatus := code;
      if c.shouldExit {
        return;
      }
      ghost var n;
      idx, n := GetNext(c.nodes, idx, code, Drop(chain, i));
      NextShift(ls, i, code);
      DropDrop(chain, i, n);
      i := i + n;
      DropKeeps(c.nodes, chain, i);
      AtRecord(c.nodes, chain, i);
    }
    AtRecord(c.nodes, chain, i);
    WalkEnd(ls, ids, outcome, Status(c.returnStatus, c.shouldExit));
  }

  lemma DropNone(c: Cell)
    ensures Drop(c, 0) == c
  {
  }

  lemma WalkEnd(ls: seq<Link>, ids: seq<nat>, outcome: nat -> Status, status: Status)
    requires |ls| == |ids|
    ensures Walk(ls, ids, outcome, |ls|, status) == Run([], status)
  {
  }

  lemma NextShift(ls: seq<Link>, i: nat, code: int)
    requires i < |ls|
    ensures NextToRun(ls, i, code) == i + NextToRun(ls[i..], 0, code)
  {
    if i + 1 < |ls| && !Satisfied(ls[i + 1], code) { SkipFrom(ls, i, 2, Opposite(ls[i + 1])); }
  }

  lemma {:induction false} SkipFrom(ls: seq<Link>, i: nat, k: nat, link: Link)
    requires i + k <= |ls|
    ensures SkipTo(ls, i + k, link) == i + SkipTo(ls[i..], k, link)
    decreases |ls| - k
  {
    if i + k < |ls| && ls[i + k] != link { SkipFrom(ls, i, k + 1, link); }
  }

  lemma {:induction false} DropDrop(c: Cell, i: nat, n: nat)
    requires i + n <= |Indices(c)|
    ensures Drop(Drop(c, i), n) == Drop(c, i + n)
  {
    if i > 0 { DropDrop(c.rest, i - 1, n); }
  }
}
