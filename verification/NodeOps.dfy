// Allocation of arena records and destructive list append, tied to the chains they work on.

module NodeOps {
  import opened NodeArena
  import opened Context

  /** The words a record owns, by their string offset. */
  function OwnerAt(n: Node): seq<nat> {
    match n.data
    case Arg(offset, _) => [offset]
    case Redir(offset, _, _) => [offset]
    case _ => []
  }

  /** The words owned by the records of an interval, in index order. */
  function Owners(nodes: seq<Node>, lo: nat, hi: nat): seq<nat>
    requires hi <= |nodes|
    decreases hi
  {
    if hi <= lo then [] else Owners(nodes, lo, hi - 1) + OwnerAt(nodes[hi - 1])
  }

  lemma {:induction false} OwnersFrame(before: seq<Node>, after: seq<Node>, lo: nat, hi: nat)
    requires hi <= |before| && hi <= |after|
    requires forall i :: lo <= i < hi ==> OwnerAt(after[i]) == OwnerAt(before[i])
    ensures Owners(after, lo, hi) == Owners(before, lo, hi)
  {
    if lo < hi { OwnersFrame(before, after, lo, hi - 1); }
  }

  lemma {:induction false} OwnersSplit(nodes: seq<Node>, lo: nat, mid: nat, hi: nat)
    requires lo <= mid <= hi <= |nodes|
    ensures Owners(nodes, lo, hi) == Owners(nodes, lo, mid) + Owners(nodes, mid, hi)
    decreases hi
  {
    if mid < hi { OwnersSplit(nodes, lo, mid, hi - 1); }
  }

  /** A record of the arena is updated in place, keeping the word it owns. */
  ghost predicate Relinked(before: seq<Node>, after: seq<Node>, lo: nat) {
    && |before| <= |after|
    && (forall i :: 0 <= i < lo && i < |before| ==> after[i] == before[i])
    && (forall i :: 0 <= i < |before| ==> OwnerAt(after[i]) == OwnerAt(before[i]))
  }

  method AllocNode(c: Ctx, data: NodeData) returns (idx: nat)
    requires c.nodes != []
    modifies c`nodes
    ensures idx == |old(c.nodes)| && c.nodes == old(c.nodes) + [Node(data, 0, {})]
  {
    idx := |c.nodes|;
    c.nodes := c.nodes + [Node(data, 0, {})];
  }

  /** The walk to the end of a chain terminates at the chain's tail. */
  method GetNodeTailIdx(c: Ctx, headIdx: nat, ghost chain: Cell) returns (tailIdx: nat)
    requires Holds(c.nodes, chain) && chain.Cell? && headIdx == chain.index
    ensures tailIdx == TailIndex(chain)
  {
    ghost var rest := chain;
    tailIdx := headIdx;
    while c.nodes[tailIdx].next != 0
      invariant Holds(c.nodes, rest) && rest.Cell? && rest.index == tailIdx
      invariant TailIndex(rest) == TailIndex(chain)
      decreases rest
    {
      tailIdx := c.nodes[tailIdx].next;
      rest := rest.rest;
    }
  }

  /** Appending by overwriting the tail's link yields the concatenated chain. */
  method AppendNodeToTail(c: Ctx, headIdx: nat, newIdx: nat, ghost chain: Cell, ghost added: Cell) returns (idx: nat)
    requires Holds(c.nodes, chain) && Holds(c.nodes, added)
    requires headIdx == Head(chain) && newIdx == Head(added)
    requires chain.Cell? ==> Uses(chain, TailIndex(chain)) == 1 && Uses(added, TailIndex(chain)) == 0
    modifies c`nodes
    ensures idx == Head(Append(chain, added)) && Holds(c.nodes, Append(chain, added))
    ensures chain.Nil? ==> c.nodes == old(c.nodes)
    ensures chain.Cell? ==> TailIndex(chain) < |old(c.nodes)|
    ensures chain.Cell? ==>
              c.nodes == old(c.nodes)[TailIndex(chain) := old(c.nodes)[TailIndex(chain)].(next := newIdx)]
  {
    if headIdx == 0 {
      return newIdx;
    }
    var tailIdx := GetNodeTailIdx(c, headIdx, chain);
    LinkTail(c.nodes, chain, added);
    AppendHead(chain, added);
    c.nodes := c.nodes[tailIdx := c.nodes[tailIdx].(next := newIdx)];
    idx := headIdx;
  }
}
