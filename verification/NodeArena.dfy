// The command node arena: records linked by index, and the tree of records that hangs under
// an index. A `Cell` mirrors one chain of the arena, with what each node points to.

module NodeArena {

  datatype NodeFlag =
    | AndIf | OrIf | InSubshell
    | RedirIn | RedirOut | RedirHere | RedirAppend | RedirHasQuotes

  /** The union of the source; its constructor is the record's type tag. */
  datatype NodeData =
    | NoData
    | Pipeline(commandHead: nat)
    | Command(argHead: nat, redirHead: nat)
    | Arg(offset: nat, wordFlags: nat)
    | Redir(offset: nat, fd: int, wordFlags: nat)

  /** One arena record, linked to the next one of its chain. */
  datatype Node = Node(data: NodeData, next: nat, flags: set<NodeFlag>)

  /** The zeroed record at index 0; index 0 also ends every chain. */
  const SENTINEL := Node(NoData, 0, {})

  /** A chain of records: the index and content of each, what hangs under it, and the rest. */
  datatype Cell = Nil | Cell(index: nat, data: NodeData, flags: set<NodeFlag>, first: Cell, second: Cell, rest: Cell)

  function Head(c: Cell): nat {
    if c.Nil? then 0 else c.index
  }

  /** The record a cell stands for: its content, with the links to its neighbours. */
  function Linked(c: Cell): Node
    requires c.Cell?
  {
    var data :=
      match c.data
      case Pipeline(_) => Pipeline(Head(c.first))
      case Command(_, _) => Command(Head(c.first), Head(c.second))
      case _ => c.data;
    Node(data, Head(c.rest), c.flags)
  }

  /** Only commands have two chains, pipelines have one, and words and redirections none. */
  predicate LinksFit(c: Cell)
    requires c.Cell?
  {
    && !c.data.NoData?
    && (!c.data.Command? ==> c.second.Nil?)
    && (c.data.Arg? || c.data.Redir? ==> c.first.Nil?)
  }

  /** The arena holds the chain: every record is in place with exactly the cell's links. */
  ghost predicate Holds(nodes: seq<Node>, c: Cell) {
    c.Cell? ==>
      && 0 < c.index < |nodes| && nodes[c.index] == Linked(c) && LinksFit(c)
      && Holds(nodes, c.first) && Holds(nodes, c.second) && Holds(nodes, c.rest)
  }

  /** A record in place, with its chains in place, is a chain in place. */
  lemma HoldsRecord(nodes: seq<Node>, c: Cell)
    requires c.Cell? && 0 < c.index < |nodes| && nodes[c.index] == Linked(c) && LinksFit(c)
    requires Holds(nodes, c.first) && Holds(nodes, c.second) && Holds(nodes, c.rest)
    ensures Holds(nodes, c)
  {
  }

  /** How many places of the chain use index `i`. */
  ghost function Uses(c: Cell, i: nat): nat {
    if c.Nil? then 0
    else (if c.index == i then 1 else 0) + Uses(c.first, i) + Uses(c.second, i) + Uses(c.rest, i)
  }

  /** The chain uses every index of the interval exactly once, and no other. */
  ghost predicate Owns(c: Cell, lo: nat, hi: nat) {
    lo <= hi && forall i: nat :: Uses(c, i) == if lo <= i < hi then 1 else 0
  }

  /** Links lead to larger indices only, and a subshell lies below its command node. */
  ghost predicate Ascending(c: Cell) {
    c.Cell? ==>
      && (c.rest.Cell? ==> c.index < c.rest.index)
      && (c.data.Command? && InSubshell in c.flags ==> forall i: nat :: Uses(c.first, i) > 0 ==> i < c.index)
      && Ascending(c.first) && Ascending(c.second) && Ascending(c.rest)
  }

  function Append(c: Cell, d: Cell): Cell {
    if c.Nil? then d else c.(rest := Append(c.rest, d))
  }

  /** The last record of a chain. */
  function TailIndex(c: Cell): nat {
    if c.Nil? then 0 else if c.rest.Nil? then c.index else TailIndex(c.rest)
  }

  lemma {:induction false} AppendUses(c: Cell, d: Cell, i: nat)
    ensures Uses(Append(c, d), i) == Uses(c, i) + Uses(d, i)
  {
    if c.Cell? { AppendUses(c.rest, d, i); }
  }

  lemma {:induction false} AppendAscends(c: Cell, d: Cell)
    requires Ascending(c) && Ascending(d)
    requires c.Cell? && d.Cell? ==> TailIndex(c) < d.index
    ensures Ascending(Append(c, d))
  {
    if c.Cell? { AppendAscends(c.rest, d); }
  }

  lemma {:induction false} TailIsUsed(c: Cell)
    requires c.Cell?
    ensures Uses(c, TailIndex(c)) > 0
  {
    if c.rest.Cell? { TailIsUsed(c.rest); }
  }

  lemma HeadIsUsed(c: Cell)
    requires c.Cell?
    ensures Uses(c, c.index) > 0
  {
  }

  /** A chain only depends on the records it uses. */
  lemma {:induction false} HoldsFrame(nodes: seq<Node>, nodes': seq<Node>, c: Cell)
    requires Holds(nodes, c) && |nodes| <= |nodes'|
    requires forall i: nat :: i < |nodes| && Uses(c, i) > 0 ==> nodes'[i] == nodes[i]
    ensures Holds(nodes', c)
  {
    if c.Cell? {
      assert Uses(c, c.index) > 0;
      HoldsFrame(nodes, nodes', c.first);
      HoldsFrame(nodes, nodes', c.second);
      HoldsFrame(nodes, nodes', c.rest);
    }
  }

  /** Chains stay in place when records are only added. */
  lemma HoldsGrows(nodes: seq<Node>, nodes': seq<Node>, c: Cell)
    requires Holds(nodes, c) && nodes <= nodes'
    ensures Holds(nodes', c)
  {
    HoldsFrame(nodes, nodes', c);
  }

  /** Setting the tail's link to another chain, which may be empty, appends that chain. */
  lemma {:induction false} LinkTail(nodes: seq<Node>, c: Cell, d: Cell)
    requires Holds(nodes, c) && Holds(nodes, d) && c.Cell?
    requires Uses(c, TailIndex(c)) == 1 && Uses(d, TailIndex(c)) == 0
    ensures TailIndex(c) < |nodes|
    ensures Holds(nodes[TailIndex(c) := nodes[TailIndex(c)].(next := Head(d))], Append(c, d))
  {
    var t := TailIndex(c);
    TailInArena(nodes, c);
    var nodes' := nodes[t := nodes[t].(next := Head(d))];
    TailNotBelow(c);
    HoldsFrame(nodes, nodes', c.first);
    HoldsFrame(nodes, nodes', c.second);
    if c.rest.Nil? {
      HoldsFrame(nodes, nodes', d);
    } else {
      LinkTail(nodes, c.rest, d);
      AppendHead(c.rest, d);
    }
  }

  /** A tail that is used once is not used below the records of its chain. */
  lemma TailNotBelow(c: Cell)
    requires c.Cell? && Uses(c, TailIndex(c)) == 1
    ensures Uses(c.first, TailIndex(c)) == 0 && Uses(c.second, TailIndex(c)) == 0
    ensures c.rest.Cell? ==> Uses(c.rest, TailIndex(c)) == 1 && c.index != TailIndex(c)
  {
    if c.rest.Cell? { TailIsUsed(c.rest); }
  }

  lemma AppendHead(c: Cell, d: Cell)
    requires c.Cell?
    ensures Append(c, d).Cell? && Append(c, d).index == c.index
  {
  }

  lemma {:induction false} TailInArena(nodes: seq<Node>, c: Cell)
    requires Holds(nodes, c) && c.Cell?
    ensures 0 < TailIndex(c) < |nodes|
  {
    if c.rest.Cell? { TailInArena(nodes, c.rest); }
  }
}
