// The reduce handlers: each rewrites the arena in place and returns the index of its result.
// All of them meet one contract: the arena then holds the chain that `Build` describes.

module Handlers {
  import opened Grammar
  import opened ParseTables
  import opened Derivations
  import opened NodeArena
  import opened Syntax
  import opened Reductions
  import opened Context
  import opened NodeOps
  import opened QuoteRemoval

  /** The chains under a right-hand side, the token of its last symbol, and who owns what. */
  datatype Kids = Kids(a: Cell, b: Cell, c: Cell, d: Cell, word: Token, lo: nat, l1: nat, l2: nat, l3: nat)

  function RhsEntry(stack: seq<Entry>, len: nat, i: nat): Entry
    requires i < len <= |stack|
  {
    stack[|stack| - len + i]
  }

  ghost predicate IsToken(tokens: seq<TokenRecord>, index: nat, word: Token) {
    index < |tokens| && tokens[index].offset == word.offset && tokens[index].flags == word.flags
  }

  ghost predicate EntryAt(stack: seq<Entry>, r: int, i: nat, chain: Cell)
    requires IsRule(r) && RhsLen(r) <= |stack|
  {
    i < RhsLen(r) ==>
      && RhsEntry(stack, RhsLen(r), i).node == Head(chain)
      && RhsEntry(stack, RhsLen(r), i).kind == RhsAt(r, i)
  }

  /** The top of the stack carries the right-hand side of `r`, with disjoint chains below it. */
  ghost predicate RhsReady(stack: seq<Entry>, nodes: seq<Node>, tokens: seq<TokenRecord>, r: int, k: Kids) {
    && IsRule(r) && RhsLen(r) < |stack| && nodes != []
    && EntryAt(stack, r, 0, k.a) && EntryAt(stack, r, 1, k.b) && EntryAt(stack, r, 2, k.c) && EntryAt(stack, r, 3, k.d)
    && CellsFit(r, k.a, k.b, k.c, k.d)
    && Holds(nodes, k.a) && Holds(nodes, k.b) && Holds(nodes, k.c) && Holds(nodes, k.d)
    && 0 < k.lo <= k.l1 <= k.l2 <= k.l3 <= |nodes|
    && Owns(k.a, k.lo, k.l1) && Owns(k.b, k.l1, k.l2) && Owns(k.c, k.l2, k.l3) && Owns(k.d, k.l3, |nodes|)
    && (TakesWord(r) ==> IsToken(tokens, stack[|stack| - 1].token, k.word))
  }

  function Built(r: int, k: Kids, next: nat): Cell
    requires IsRule(r) && CellsFit(r, k.a, k.b, k.c, k.d)
  {
    Build(r, k.a, k.b, k.c, k.d, k.word, next)
  }

  /** The productions whose handler gives the last WORD an owner. */
  predicate TakesWord(r: int) {
    r == 24 || r == 25 || r == 30 || r == 31 || r == 39 || r == 40
  }

  function NewWord(r: int, word: Token): seq<nat> {
    if TakesWord(r) then [word.offset] else []
  }

  /** What a handler leaves behind. */
  ghost predicate HandlerDone(before: seq<Node>, after: seq<Node>, r: int, k: Kids, nodeIdx: nat)
    requires IsRule(r) && CellsFit(r, k.a, k.b, k.c, k.d)
  {
    && |after| == |before| + Allocates(r)
    && Relinked(before, after, k.lo)
    && Holds(after, Built(r, k, |before|)) && nodeIdx == Head(Built(r, k, |before|))
    && Owners(after, |before|, |after|) == NewWord(r, k.word)
  }

  lemma Apart(c: Cell, lo: nat, hi: nat, i: nat)
    requires Owns(c, lo, hi) && !(lo <= i < hi)
    ensures Uses(c, i) == 0
  {
  }

  // ---- Words and redirections ------------------------------------------------------------

  /** The record made for a WORD token. */
  function WordNode(lhs: Symbol, word: Token): Node {
    Node(if lhs == SYM_FILENAME then Redir(word.offset, 0, word.flags % WORD_FLAGS)
      else Arg(word.offset, word.flags % WORD_FLAGS), 0, {})
  }

  /** Gives the last token of the right-hand side an owner. */
  method ReduceFromTerm(c: Ctx, rule: Rule, ghost word: Token) returns (nodeIdx: nat)
    requires c.nodes != [] && 0 < rule.rhsLen <= |c.stack|
    requires IsToken(c.tokens, RhsEntry(c.stack, rule.rhsLen, rule.rhsLen - 1).token, word)
    modifies c`nodes
    ensures nodeIdx == |old(c.nodes)| && c.nodes == old(c.nodes) + [WordNode(rule.lhsType, word)]
  {
    var symbol := RhsEntry(c.stack, rule.rhsLen, rule.rhsLen - 1);
    var token := c.tokens[symbol.token];
    if rule.lhsType == SYM_FILENAME {
      nodeIdx := AllocNode(c, Redir(0, 0, 0));
      c.nodes := c.nodes[nodeIdx := c.nodes[nodeIdx].(data := Redir(token.offset, 0, token.flags % WORD_FLAGS))];
    } else {
      nodeIdx := AllocNode(c, Arg(0, 0));
      c.nodes := c.nodes[nodeIdx := c.nodes[nodeIdx].(data := Arg(token.offset, token.flags % WORD_FLAGS))];
    }
  }

  lemma FromTermDone(stack: seq<Entry>, before: seq<Node>, tokens: seq<TokenRecord>, r: int, k: Kids)
    requires (r == 24 || r == 25 || r == 39) && RhsReady(stack, before, tokens, r, k)
    ensures HandlerDone(before, before + [WordNode(Lhs(r), k.word)], r, k, |before|)
  {
  }

  method ReduceRedirAppend(c: Ctx, rule: Rule, ghost r: int, ghost k: Kids) returns (nodeIdx: nat)
    requires (r == 27 || r == 33) && rule == GetRule(r) && RhsReady(c.stack, c.nodes, c.tokens, r, k)
    modifies c`nodes
    ensures HandlerDone(old(c.nodes), c.nodes, r, k, nodeIdx)
  {
    var list := RhsEntry(c.stack, rule.rhsLen, 0);
    var redir := RhsEntry(c.stack, rule.rhsLen, 1);
    TailIsApart(k.a, k.lo, k.l1, k.b, k.l1, k.l2);
    nodeIdx := AppendNodeToTail(c, list.node, redir.node, k.a, k.b);
  }

  /** The tail of a chain is used by no chain that owns a later interval. */
  lemma TailIsApart(c: Cell, lo: nat, hi: nat, d: Cell, lo': nat, hi': nat)
    requires Owns(c, lo, hi) && Owns(d, lo', hi') && hi <= lo'
    ensures c.Cell? ==> lo <= TailIndex(c) < hi && Uses(c, TailIndex(c)) == 1 && Uses(d, TailIndex(c)) == 0
  {
    if c.Cell? { OwnedIndices(c, lo, hi); }
  }

  method ReduceIoFile(c: Ctx, rule: Rule, ghost r: int, ghost k: Kids) returns (nodeIdx: nat)
    requires 36 <= r <= 38 && rule == GetRule(r) && RhsReady(c.stack, c.nodes, c.tokens, r, k)
    modifies c`nodes
    ensures HandlerDone(old(c.nodes), c.nodes, r, k, nodeIdx)
  {
    var symbol := RhsEntry(c.stack, rule.rhsLen, 1);
    nodeIdx := symbol.node;
    var node := c.nodes[nodeIdx];
    var op := RhsEntry(c.stack, rule.rhsLen, 0);
    OwnedIndices(k.b, k.l1, k.l2);
    if op.kind == SYM_LESS {
      c.nodes := c.nodes[nodeIdx := node.(flags := node.flags + {RedirIn})];
    } else if op.kind == SYM_GREAT {
      c.nodes := c.nodes[nodeIdx := node.(flags := node.flags + {RedirOut})];
    } else {
      c.nodes := c.nodes[nodeIdx := node.(flags := node.flags + {RedirAppend})];
    }
  }

  // ---- Simple commands -------------------------------------------------------------------

  method ReduceSimpleCommand(c: Ctx, rule: Rule, ghost r: int, ghost k: Kids) returns (cmdIdx: nat)
    requires (r == 20 || r == 21 || r == 23) && rule == GetRule(r) && RhsReady(c.stack, c.nodes, c.tokens, r, k)
    modifies c`nodes
    ensures HandlerDone(old(c.nodes), c.nodes, r, k, cmdIdx)
  {
    hide Holds, Owns, Uses;
    cmdIdx := AllocNode(c, Command(0, 0));
    var lead := RhsEntry(c.stack, rule.rhsLen, 0);
    var args, redirs := lead.node, 0;
    if lead.kind == SYM_CMD_PREFIX {
      args, redirs := 0, lead.node;
    }
    if rule.rhsLen == 2 {
      var word := RhsEntry(c.stack, rule.rhsLen, 1);
      args := word.node;
    }
    c.nodes := c.nodes[cmdIdx := c.nodes[cmdIdx].(data := Command(args, redirs))];
    HoldsGrows(old(c.nodes), c.nodes, k.a);
    HoldsGrows(old(c.nodes), c.nodes, k.b);
    HoldsNil(c.nodes);
    HoldsRecord(c.nodes, Built(r, k, |old(c.nodes)|));
    assert Relinked(old(c.nodes), c.nodes, k.lo);
    assert Owners(c.nodes, |old(c.nodes)|, |c.nodes|) == [];
  }

  lemma HoldsNil(nodes: seq<Node>)
    ensures Holds(nodes, Nil)
  {
  }

  /** The command record of `cmd` is in place, whatever its two lists are. */
  ghost predicate HasRecord(nodes: seq<Node>, cmd: Cell) {
    && IsCommandCell(cmd) && 0 < cmd.index < |nodes|
    && nodes[cmd.index].data.Command? && nodes[cmd.index].flags == cmd.flags && nodes[cmd.index].next == 0
  }

  lemma SetArgs(nodes: seq<Node>, cmd: Cell, args: Cell)
    requires HasRecord(nodes, cmd) && nodes[cmd.index].data.redirHead == Head(cmd.second)
    requires Holds(nodes, cmd.second) && Holds(nodes, args)
    requires Uses(cmd.second, cmd.index) == 0 && Uses(args, cmd.index) == 0
    ensures Holds(nodes[cmd.index := nodes[cmd.index].(data := nodes[cmd.index].data.(argHead := Head(args)))],
      cmd.(first := args))
  {
    var nodes' := nodes[cmd.index := nodes[cmd.index].(data := nodes[cmd.index].data.(argHead := Head(args)))];
    HoldsFrame(nodes, nodes', cmd.second);
    HoldsFrame(nodes, nodes', args);
  }

  lemma SetRedirs(nodes: seq<Node>, cmd: Cell, redirs: Cell)
    requires HasRecord(nodes, cmd) && nodes[cmd.index].data.argHead == Head(cmd.first)
    requires Holds(nodes, cmd.first) && Holds(nodes, redirs)
    requires Uses(cmd.first, cmd.index) == 0 && Uses(redirs, cmd.index) == 0
    ensures Holds(nodes[cmd.index := nodes[cmd.index].(data := nodes[cmd.index].data.(redirHead := Head(redirs)))],
      cmd.(second := redirs))
  {
    var nodes' := nodes[cmd.index := nodes[cmd.index].(data := nodes[cmd.index].data.(redirHead := Head(redirs)))];
    HoldsFrame(nodes, nodes', cmd.first);
    HoldsFrame(nodes, nodes', redirs);
  }

  lemma CommandParts(nodes: seq<Node>, cmd: Cell)
    requires Holds(nodes, cmd) && IsCommandCell(cmd)
    ensures HasRecord(nodes, cmd) && nodes[cmd.index].data == Command(Head(cmd.first), Head(cmd.second))
    ensures Holds(nodes, cmd.first) && Holds(nodes, cmd.second)
    ensures forall i: nat ::
      Uses(cmd, i) == (if i == cmd.index then 1 else 0) + Uses(cmd.first, i) + Uses(cmd.second, i)
  {
  }

  /** Prepends a chain to the arguments of a command record. */
  method PrependArgs(c: Ctx, cmdIdx: nat, headIdx: nat, ghost cmd: Cell, ghost chain: Cell, ghost lo: nat,
                     ghost mid: nat)
    requires Holds(c.nodes, cmd) && Holds(c.nodes, chain) && IsCommandCell(cmd) && chain.Cell?
    requires cmdIdx == cmd.index && headIdx == chain.index
    requires Owns(chain, lo, mid) && (forall i: nat :: i < mid ==> Uses(cmd, i) == 0) && Uses(cmd, cmd.index) == 1
    modifies c`nodes
    ensures |c.nodes| == |old(c.nodes)| && Relinked(old(c.nodes), c.nodes, lo)
    ensures Holds(c.nodes, cmd.(first := Append(chain, cmd.first)))
  {
    hide Holds, Uses;
    OwnedIndices(chain, lo, mid);
    Apart(chain, lo, mid, cmdIdx);
    CommandParts(c.nodes, cmd);
    assert Uses(cmd, TailIndex(chain)) == 0;
    TailIsUsed(chain);
    UsedIsOwned(chain, lo, mid, TailIndex(chain));
    var args := AppendNodeToTail(c, headIdx, c.nodes[cmdIdx].data.argHead, chain, cmd.first);
    HoldsFrame(old(c.nodes), c.nodes, cmd.second);
    AppendUses(chain, cmd.first, cmdIdx);
    SetArgs(c.nodes, cmd, Append(chain, cmd.first));
    c.nodes := c.nodes[cmdIdx := c.nodes[cmdIdx].(data := c.nodes[cmdIdx].data.(argHead := args))];
  }

  /** Prepends a chain to the redirections of a command record. */
  method PrependRedirs(c: Ctx, cmdIdx: nat, headIdx: nat, ghost cmd: Cell, ghost chain: Cell, ghost lo: nat,
                       ghost mid: nat)
    requires Holds(c.nodes, cmd) && Holds(c.nodes, chain) && IsCommandCell(cmd) && chain.Cell?
    requires cmdIdx == cmd.index && headIdx == chain.index
    requires Owns(chain, lo, mid) && (forall i: nat :: i < mid ==> Uses(cmd, i) == 0) && Uses(cmd, cmd.index) == 1
    modifies c`nodes
    ensures |c.nodes| == |old(c.nodes)| && Relinked(old(c.nodes), c.nodes, lo)
    ensures Holds(c.nodes, cmd.(second := Append(chain, cmd.second)))
  {
    hide Holds, Uses;
    OwnedIndices(chain, lo, mid);
    Apart(chain, lo, mid, cmdIdx);
    CommandParts(c.nodes, cmd);
    assert Uses(cmd, TailIndex(chain)) == 0;
    TailIsUsed(chain);
    UsedIsOwned(chain, lo, mid, TailIndex(chain));
    var redirs := AppendNodeToTail(c, headIdx, c.nodes[cmdIdx].data.redirHead, chain, cmd.second);
    HoldsFrame(old(c.nodes), c.nodes, cmd.first);
    AppendUses(chain, cmd.second, cmdIdx);
    SetRedirs(c.nodes, cmd, Append(chain, cmd.second));
    c.nodes := c.nodes[cmdIdx := c.nodes[cmdIdx].(data := c.nodes[cmdIdx].data.(redirHead := redirs))];
  }

  lemma RelinkedTwice(before: seq<Node>, between: seq<Node>, after: seq<Node>, lo: nat, mid: nat)
    requires Relinked(before, between, mid) && Relinked(between, after, lo) && lo <= mid
    ensures Relinked(before, after, lo)
  {
  }

  method ReduceSimpleCommandFromSuffix(c: Ctx, rule: Rule, ghost r: int, ghost k: Kids) returns (cmdIdx: nat)
    requires (r == 19 || r == 22) && rule == GetRule(r) && RhsReady(c.stack, c.nodes, c.tokens, r, k)
    modifies c`nodes
    ensures HandlerDone(old(c.nodes), c.nodes, r, k, cmdIdx)
  {
    hide Holds, Owns, Uses;
    var suffix := RhsEntry(c.stack, rule.rhsLen, rule.rhsLen - 1);
    var name := RhsEntry(c.stack, rule.rhsLen, rule.rhsLen - 2);
    cmdIdx := suffix.node;
    if rule.rhsLen == 3 {
      BelowIsUnused(k.c, k.l2, k.l3);
      BelowIsUnused(k.b, k.l1, k.l2);
      PrependArgs(c, cmdIdx, name.node, k.c, k.b, k.l1, k.l2);
      ghost var between := c.nodes;
      var prefix := RhsEntry(c.stack, rule.rhsLen, 0);
      FrameBelow(old(c.nodes), c.nodes, k.a, k.lo, k.l1);
      PrependedUses(k.c, k.b);
      OwnedIndices(k.c, k.l2, k.l3);
      Apart(k.b, k.l1, k.l2, k.c.index);
      PrependRedirs(c, cmdIdx, prefix.node, k.c.(first := Append(k.b, k.c.first)), k.a, k.lo, k.l1);
      RelinkedTwice(old(c.nodes), between, c.nodes, k.lo, k.l1);
    } else {
      BelowIsUnused(k.b, k.l1, k.l2);
      PrependArgs(c, cmdIdx, name.node, k.b, k.a, k.lo, k.l1);
    }
  }

  lemma BelowIsUnused(c: Cell, lo: nat, hi: nat)
    requires Owns(c, lo, hi)
    ensures forall i: nat :: i < lo ==> Uses(c, i) == 0
    ensures c.Cell? ==> Uses(c, c.index) == 1
  {
    if c.Cell? { HeadIsUsed(c); }
  }

  lemma PrependedUses(cmd: Cell, chain: Cell)
    requires cmd.Cell?
    ensures forall i: nat :: Uses(cmd.(first := Append(chain, cmd.first)), i) == Uses(cmd, i) + Uses(chain, i)
  {
    forall i: nat ensures Uses(cmd.(first := Append(chain, cmd.first)), i) == Uses(cmd, i) + Uses(chain, i) {
      AppendUses(chain, cmd.first, i);
    }
  }

  lemma FrameBelow(before: seq<Node>, after: seq<Node>, c: Cell, lo: nat, hi: nat)
    requires Holds(before, c) && Owns(c, lo, hi) && Relinked(before, after, hi)
    ensures Holds(after, c)
  {
    HoldsFrame(before, after, c);
  }

  /** Appends a chain to the arguments of a command record. */
  method AttachArg(c: Ctx, cmdIdx: nat, childIdx: nat, ghost cmd: Cell, ghost child: Cell, ghost lo: nat, ghost hi: nat)
    requires Holds(c.nodes, cmd) && Holds(c.nodes, child) && IsCommandCell(cmd) && child.Cell?
    requires cmdIdx == cmd.index && childIdx == child.index
    requires Owns(cmd, lo, hi) && forall i: nat :: lo <= i < hi ==> Uses(child, i) == 0
    modifies c`nodes
    ensures |c.nodes| == |old(c.nodes)| && Relinked(old(c.nodes), c.nodes, lo)
    ensures Holds(c.nodes, cmd.(first := Append(cmd.first, child)))
  {
    hide Holds, Uses;
    OwnedIndices(cmd, lo, hi);
    CommandParts(c.nodes, cmd);
    TailOfPart(cmd, lo, hi, cmd.first, cmd.second);
    var newHead := AppendNodeToTail(c, c.nodes[cmdIdx].data.argHead, childIdx, cmd.first, child);
    HoldsFrame(old(c.nodes), c.nodes, cmd.second);
    AppendUses(cmd.first, child, cmdIdx);
    SetArgs(c.nodes, cmd, Append(cmd.first, child));
    c.nodes := c.nodes[cmdIdx := c.nodes[cmdIdx].(data := c.nodes[cmdIdx].data.(argHead := newHead))];
  }

  /** Appends a chain to the redirections of a command record. */
  method AttachRedir(c: Ctx, cmdIdx: nat, childIdx: nat, ghost cmd: Cell, ghost child: Cell, ghost lo: nat,
                     ghost hi: nat)
    requires Holds(c.nodes, cmd) && Holds(c.nodes, child) && IsCommandCell(cmd) && child.Cell?
    requires cmdIdx == cmd.index && childIdx == child.index
    requires Owns(cmd, lo, hi) && forall i: nat :: lo <= i < hi ==> Uses(child, i) == 0
    modifies c`nodes
    ensures |c.nodes| == |old(c.nodes)| && Relinked(old(c.nodes), c.nodes, lo)
    ensures Holds(c.nodes, cmd.(second := Append(cmd.second, child)))
  {
    hide Holds, Uses;
    OwnedIndices(cmd, lo, hi);
    CommandParts(c.nodes, cmd);
    TailOfPart(cmd, lo, hi, cmd.second, cmd.first);
    var newHead := AppendNodeToTail(c, c.nodes[cmdIdx].data.redirHead, childIdx, cmd.second, child);
    HoldsFrame(old(c.nodes), c.nodes, cmd.first);
    AppendUses(cmd.second, child, cmdIdx);
    SetRedirs(c.nodes, cmd, Append(cmd.second, child));
    c.nodes := c.nodes[cmdIdx := c.nodes[cmdIdx].(data := c.nodes[cmdIdx].data.(redirHead := newHead))];
  }

  /** One of a command's two chains has its tail to itself. */
  lemma TailOfPart(cmd: Cell, lo: nat, hi: nat, chain: Cell, other: Cell)
    requires IsCommandCell(cmd) && Owns(cmd, lo, hi)
    requires (chain == cmd.first && other == cmd.second) || (chain == cmd.second && other == cmd.first)
    ensures Uses(chain, cmd.index) == 0 && Uses(other, cmd.index) == 0
    ensures chain.Cell? ==> lo <= TailIndex(chain) < hi && TailIndex(chain) != cmd.index
    ensures chain.Cell? ==> Uses(chain, TailIndex(chain)) == 1 && Uses(other, TailIndex(chain)) == 0
  {
    assert Uses(cmd, cmd.index) <= 1;
    if chain.Cell? {
      TailIsUsed(chain);
      assert Uses(cmd, TailIndex(chain)) <= 1;
    }
  }

  /** Attaches the last symbol of a suffix: a redirection, or a word that first gets a record. */
  method SuffixAttachLast(c: Ctx, rule: Rule, cmdIdx: nat, ghost cmd: Cell, ghost redir: Cell, ghost word: Token,
                          ghost lo: nat, ghost hi: nat)
    requires c.nodes != [] && 0 < rule.rhsLen <= |c.stack| && rule.lhsType != SYM_FILENAME
    requires Holds(c.nodes, cmd) && IsCommandCell(cmd) && cmdIdx == cmd.index && Owns(cmd, lo, hi) && hi <= |c.nodes|
    requires var last := RhsEntry(c.stack, rule.rhsLen, rule.rhsLen - 1);
      if last.kind == SYM_IO_REDIRECT then
        && Holds(c.nodes, redir) && redir.Cell? && last.node == redir.index
        && forall i: nat :: lo <= i < hi ==> Uses(redir, i) == 0
      else IsToken(c.tokens, last.token, word)
    modifies c`nodes
    ensures Relinked(old(c.nodes), c.nodes, lo)
    ensures RhsEntry(c.stack, rule.rhsLen, rule.rhsLen - 1).kind == SYM_IO_REDIRECT ==>
              && |c.nodes| == |old(c.nodes)|
              && Holds(c.nodes, cmd.(second := Append(cmd.second, redir)))
    ensures RhsEntry(c.stack, rule.rhsLen, rule.rhsLen - 1).kind != SYM_IO_REDIRECT ==>
              && |c.nodes| == |old(c.nodes)| + 1 && OwnerAt(c.nodes[|old(c.nodes)|]) == [word.offset]
              && Holds(c.nodes, cmd.(first := Append(cmd.first, ArgCell(|old(c.nodes)|, word))))
  {
    hide Holds, Owns, Uses;
    var last := RhsEntry(c.stack, rule.rhsLen, rule.rhsLen - 1);
    if last.kind == SYM_IO_REDIRECT {
      AttachRedir(c, cmdIdx, last.node, cmd, redir, lo, hi);
    } else {
      var childIdx := ReduceFromTerm(c, rule, word);
      HoldsGrows(old(c.nodes), c.nodes, cmd);
      FreshWord(c.nodes, childIdx, word);
      ghost var grown := c.nodes;
      AttachArg(c, cmdIdx, childIdx, cmd, ArgCell(childIdx, word), lo, hi);
      assert OwnerAt(grown[childIdx]) == [word.offset];
    }
  }

  lemma FreshWord(nodes: seq<Node>, i: nat, word: Token)
    requires 0 < i < |nodes| && nodes[i] == WordNode(SYM_CMD_NAME, word)
    ensures Holds(nodes, ArgCell(i, word))
    ensures forall j: nat :: Uses(ArgCell(i, word), j) == if i == j then 1 else 0
  {
  }

  lemma FreshCommand(nodes: seq<Node>, i: nat)
    requires 0 < i < |nodes| && nodes[i] == Node(Command(0, 0), 0, {})
    ensures Holds(nodes, CommandCell(i, Nil, Nil)) && Owns(CommandCell(i, Nil, Nil), i, i + 1)
  {
  }

  lemma NewOwners(nodes: seq<Node>, n: nat, words: seq<nat>)
    requires n < |nodes| && OwnerAt(nodes[n]) == []
    requires if |nodes| == n + 1 then words == [] else |nodes| == n + 2 && OwnerAt(nodes[n + 1]) == words
    ensures Owners(nodes, n, |nodes|) == words
  {
    assert Owners(nodes, n, n + 1) == [];
  }

  method StartSuffix(c: Ctx, rule: Rule, ghost r: int, ghost k: Kids) returns (cmdIdx: nat)
    requires (r == 28 || r == 30) && rule == GetRule(r) && RhsReady(c.stack, c.nodes, c.tokens, r, k)
    modifies c`nodes
    ensures HandlerDone(old(c.nodes), c.nodes, r, k, cmdIdx)
  {
    hide Holds, Owns, Uses, Owners;
    cmdIdx := AllocNode(c, Command(0, 0));
    FreshCommand(c.nodes, cmdIdx);
    if k.a.Cell? {
      HoldsGrows(old(c.nodes), c.nodes, k.a);
      Apart(k.a, k.lo, k.l1, cmdIdx);
    }
    ghost var grown := c.nodes;
    SuffixAttachLast(c, rule, cmdIdx, CommandCell(cmdIdx, Nil, Nil), k.a, k.word, cmdIdx, cmdIdx + 1);
    RelinkedTwice(old(c.nodes), grown, c.nodes, k.lo, cmdIdx);
    assert OwnerAt(grown[cmdIdx]) == [];
    NewOwners(c.nodes, cmdIdx, NewWord(r, k.word));
    assert Built(r, k, |old(c.nodes)|) == if r == 28 then CommandCell(cmdIdx, Nil, k.a)
      else CommandCell(cmdIdx, ArgCell(cmdIdx + 1, k.word), Nil);
  }

  method ExtendSuffix(c: Ctx, rule: Rule, ghost r: int, ghost k: Kids) returns (cmdIdx: nat)
    requires (r == 29 || r == 31) && rule == GetRule(r) && RhsReady(c.stack, c.nodes, c.tokens, r, k)
    modifies c`nodes
    ensures HandlerDone(old(c.nodes), c.nodes, r, k, cmdIdx)
  {
    hide Holds, Owns, Uses;
    var prev := RhsEntry(c.stack, rule.rhsLen, 0);
    cmdIdx := prev.node;
    BelowIsUnused(k.b, k.l1, k.l2);
    SuffixAttachLast(c, rule, cmdIdx, k.a, k.b, k.word, k.lo, k.l1);
    assert Owners(c.nodes, |old(c.nodes)|, |c.nodes|) == NewWord(r, k.word);
    assert Holds(c.nodes, Built(r, k, |old(c.nodes)|));
  }

  method ReduceCmdSuffix(c: Ctx, rule: Rule, ghost r: int, ghost k: Kids) returns (cmdIdx: nat)
    requires 28 <= r <= 31 && rule == GetRule(r) && RhsReady(c.stack, c.nodes, c.tokens, r, k)
    modifies c`nodes
    ensures HandlerDone(old(c.nodes), c.nodes, r, k, cmdIdx)
  {
    hide RhsReady, HandlerDone;
    if rule.rhsLen == 1 {
      cmdIdx := StartSuffix(c, rule, r, k);
    } else {
      cmdIdx := ExtendSuffix(c, rule, r, k);
    }
  }

  // ---- Compound commands, pipelines, lists -----------------------------------------------

  method ReduceSubshellRedirects(c: Ctx, rule: Rule, ghost r: int, ghost k: Kids) returns (cmdIdx: nat)
    requires r == 13 && rule == GetRule(r) && RhsReady(c.stack, c.nodes, c.tokens, r, k)
    modifies c`nodes
    ensures HandlerDone(old(c.nodes), c.nodes, r, k, cmdIdx)
  {
    hide Holds, Uses, Owns;
    var cmd := RhsEntry(c.stack, rule.rhsLen, 0);
    var redir := RhsEntry(c.stack, rule.rhsLen, 1);
    cmdIdx := cmd.node;
    OwnedIndices(k.a, k.lo, k.l1);
    Apart(k.b, k.l1, k.l2, cmdIdx);
    CommandParts(c.nodes, k.a);
    UsedIsOwned(k.a, k.lo, k.l1, cmdIdx);
    SetRedirs(c.nodes, k.a, k.b);
    c.nodes := c.nodes[cmdIdx := c.nodes[cmdIdx].(data := c.nodes[cmdIdx].data.(redirHead := redir.node))];
  }

  method ReduceCompoundList(c: Ctx, rule: Rule, ghost r: int, ghost k: Kids) returns (nodeIdx: nat)
    requires (r == 15 || r == 16) && rule == GetRule(r) && RhsReady(c.stack, c.nodes, c.tokens, r, k)
    ensures HandlerDone(c.nodes, c.nodes, r, k, nodeIdx)
  {
    var term := RhsEntry(c.stack, rule.rhsLen, 1);
    nodeIdx := term.node;
  }

  method ReduceSubshell(c: Ctx, rule: Rule, ghost r: int, ghost k: Kids) returns (cmdIdx: nat)
    requires r == 14 && rule == GetRule(r) && RhsReady(c.stack, c.nodes, c.tokens, r, k)
    modifies c`nodes
    ensures HandlerDone(old(c.nodes), c.nodes, r, k, cmdIdx)
  {
    hide Holds, Uses, Owns;
    cmdIdx := AllocNode(c, Command(0, 0));
    var compound := RhsEntry(c.stack, rule.rhsLen, 1);
    var node := c.nodes[cmdIdx];
    c.nodes := c.nodes[cmdIdx := node.(flags := node.flags + {InSubshell},
      data := node.data.(argHead := compound.node))];
    HoldsGrows(old(c.nodes), c.nodes, k.b);
    HoldsNil(c.nodes);
    assert {} + {InSubshell} == {InSubshell};
    HoldsRecord(c.nodes, Built(r, k, |old(c.nodes)|));
    assert Owners(c.nodes, |old(c.nodes)|, |c.nodes|) == NewWord(r, k.word);
  }

  method ReducePipelineCreate(c: Ctx, rule: Rule, ghost r: int, ghost k: Kids) returns (pipelineIdx: nat)
    requires r == 9 && rule == GetRule(r) && RhsReady(c.stack, c.nodes, c.tokens, r, k)
    modifies c`nodes
    ensures HandlerDone(old(c.nodes), c.nodes, r, k, pipelineIdx)
  {
    hide Holds, Uses, Owns;
    pipelineIdx := AllocNode(c, Pipeline(0));
    var cmd := RhsEntry(c.stack, rule.rhsLen, 0);
    c.nodes := c.nodes[pipelineIdx := c.nodes[pipelineIdx].(data := Pipeline(cmd.node))];
    HoldsGrows(old(c.nodes), c.nodes, k.a);
    HoldsNil(c.nodes);
    HoldsRecord(c.nodes, Built(r, k, |old(c.nodes)|));
    assert Owners(c.nodes, |old(c.nodes)|, |c.nodes|) == NewWord(r, k.word);
  }

  method ReducePipelineAppend(c: Ctx, rule: Rule, ghost r: int, ghost k: Kids) returns (pipelineIdx: nat)
    requires r == 10 && rule == GetRule(r) && RhsReady(c.stack, c.nodes, c.tokens, r, k)
    modifies c`nodes
    ensures HandlerDone(old(c.nodes), c.nodes, r, k, pipelineIdx)
  {
    hide Uses, Owns;
    var pipeline := RhsEntry(c.stack, rule.rhsLen, 0);
    var cmd := RhsEntry(c.stack, rule.rhsLen, 3);
    pipelineIdx := pipeline.node;
    PipelineTail(k.a, k.lo, k.l1);
    Apart(k.d, k.l3, |c.nodes|, TailIndex(k.a.first));
    Apart(k.d, k.l3, |c.nodes|, pipelineIdx);
    var newHead := AppendNodeToTail(c, c.nodes[pipelineIdx].data.commandHead, cmd.node, k.a.first, k.d);
    AppendUses(k.a.first, k.d, pipelineIdx);
    ghost var linked := c.nodes;
    c.nodes := c.nodes[pipelineIdx := c.nodes[pipelineIdx].(data := Pipeline(newHead))];
    HoldsFrame(linked, c.nodes, Append(k.a.first, k.d));
    assert Relinked(old(c.nodes), c.nodes, k.lo);
    assert Holds(c.nodes, Built(r, k, |old(c.nodes)|));
  }

  lemma PipelineTail(p: Cell, lo: nat, hi: nat)
    requires IsSingle(p) && p.first.Cell? && Owns(p, lo, hi)
    ensures lo <= p.index < hi && Uses(p.first, p.index) == 0
    ensures lo <= TailIndex(p.first) < hi && TailIndex(p.first) != p.index && Uses(p.first, TailIndex(p.first)) == 1
  {
    OwnedIndices(p, lo, hi);
    TailIsUsed(p.first);
    assert Uses(p, p.index) <= 1;
    assert Uses(p, TailIndex(p.first)) <= 1;
  }

  /** Appends an element to a list; the list is empty after its commands have been run. */
  method ListAppend(c: Ctx, rule: Rule, ghost list: Cell, ghost elem: Cell, ghost lo: nat, ghost mid: nat,
                    ghost from: nat, ghost hi: nat)
    returns (nodeIdx: nat)
    requires 0 < rule.rhsLen <= |c.stack|
    requires RhsEntry(c.stack, rule.rhsLen, 0).node == Head(list)
    requires RhsEntry(c.stack, rule.rhsLen, rule.rhsLen - 1).node == Head(elem)
    requires Holds(c.nodes, list) && Holds(c.nodes, elem) && Owns(list, lo, mid) && Owns(elem, from, hi) && mid <= from
    modifies c`nodes
    ensures nodeIdx == Head(Append(list, elem)) && Holds(c.nodes, Append(list, elem))
    ensures |c.nodes| == |old(c.nodes)| && Relinked(old(c.nodes), c.nodes, lo)
  {
    var listEntry := RhsEntry(c.stack, rule.rhsLen, 0);
    var elemEntry := RhsEntry(c.stack, rule.rhsLen, rule.rhsLen - 1);
    TailIsApart(list, lo, mid, elem, from, hi);
    nodeIdx := AppendNodeToTail(c, listEntry.node, elemEntry.node, list, elem);
  }

  method ReduceListAppend(c: Ctx, rule: Rule, ghost r: int, ghost k: Kids) returns (nodeIdx: nat)
    requires (r == 4 || r == 17) && rule == GetRule(r) && RhsReady(c.stack, c.nodes, c.tokens, r, k)
    modifies c`nodes
    ensures HandlerDone(old(c.nodes), c.nodes, r, k, nodeIdx)
  {
    hide Holds, Uses, Owns;
    nodeIdx := ListAppend(c, rule, k.a, k.c, k.lo, k.l1, k.l2, k.l3);
  }

  method ReduceAndOrConditional(c: Ctx, rule: Rule, ghost r: int, ghost k: Kids) returns (nodeIdx: nat)
    requires (r == 7 || r == 8) && rule == GetRule(r) && RhsReady(c.stack, c.nodes, c.tokens, r, k)
    modifies c`nodes
    ensures HandlerDone(old(c.nodes), c.nodes, r, k, nodeIdx)
  {
    hide Holds, Uses, Owns;
    var op := RhsEntry(c.stack, rule.rhsLen, 1);
    var pipeline := RhsEntry(c.stack, rule.rhsLen, 3);
    ghost var flags := k.d.flags + {if r == 7 then AndIf else OrIf};
    OwnedIndices(k.d, k.l3, |c.nodes|);
    var node := c.nodes[pipeline.node];
    Apart(k.a, k.lo, k.l1, pipeline.node);
    SetFlags(c.nodes, k.d, k.l3, |c.nodes|, flags);
    if op.kind == SYM_AND_IF {
      c.nodes := c.nodes[pipeline.node := node.(flags := node.flags + {AndIf})];
    } else {
      c.nodes := c.nodes[pipeline.node := node.(flags := node.flags + {OrIf})];
    }
    ghost var flagged := c.nodes;
    HoldsFrame(old(c.nodes), c.nodes, k.a);
    nodeIdx := ListAppend(c, rule, k.a, k.d.(flags := flags), k.lo, k.l1, k.l3, |c.nodes|);
    RelinkedTwice(old(c.nodes), flagged, c.nodes, k.lo, k.l1);
  }

  /** Changing the flags of a chain's first record. */
  lemma SetFlags(nodes: seq<Node>, p: Cell, lo: nat, hi: nat, flags: set<NodeFlag>)
    requires Holds(nodes, p) && p.Cell? && Owns(p, lo, hi)
    ensures p.index < |nodes| && nodes[p.index].flags == p.flags
    ensures Holds(nodes[p.index := nodes[p.index].(flags := flags)], p.(flags := flags))
    ensures Owns(p.(flags := flags), lo, hi)
  {
    var nodes' := nodes[p.index := nodes[p.index].(flags := flags)];
    assert Uses(p, p.index) <= 1;
    HoldsFrame(nodes, nodes', p.first);
    HoldsFrame(nodes, nodes', p.second);
    HoldsFrame(nodes, nodes', p.rest);
    forall i: nat ensures Uses(p.(flags := flags), i) == Uses(p, i) {}
  }

  method ReduceProgram(c: Ctx, rule: Rule, ghost r: int, ghost k: Kids) returns (nodeIdx: nat)
    requires r == 2 && rule == GetRule(r) && RhsReady(c.stack, c.nodes, c.tokens, r, k)
    ensures HandlerDone(c.nodes, c.nodes, r, k, nodeIdx)
  {
    var commands := RhsEntry(c.stack, rule.rhsLen, 1);
    nodeIdx := commands.node;
  }

  // ---- Here-documents --------------------------------------------------------------------

  /** Removes the delimiter's quotes in the string arena and tells the node flags. */
  method SetHereDelim(c: Ctx, token: TokenRecord) returns (flags: set<NodeFlag>)
    requires token.offset < |c.strings|
    modifies c`strings
    ensures c.strings == old(c.strings)[token.offset := QuoteRemove(old(c.strings)[token.offset])]
    ensures flags == if token.flags % 2 == TKN_HAS_QUOTES then {RedirHere, RedirHasQuotes} else {RedirHere}
  {
    c.strings := c.strings[token.offset := QuoteRemove(c.strings[token.offset])];
    flags := {RedirHere};
    if token.flags % 2 == TKN_HAS_QUOTES {
      flags := flags + {RedirHasQuotes};
    }
  }

  method ReduceIoHere(c: Ctx, parse: ParserState, rule: Rule, ghost r: int, ghost k: Kids) returns (nodeIdx: nat)
    requires r == 40 && rule == GetRule(r) && RhsReady(c.stack, c.nodes, c.tokens, r, k)
    requires k.word.offset < |c.strings|
    modifies c`nodes, c`strings, parse`saveTokens
    ensures HandlerDone(old(c.nodes), c.nodes, r, k, nodeIdx)
    ensures parse.saveTokens
    ensures c.strings == old(c.strings)[k.word.offset := QuoteRemove(old(c.strings)[k.word.offset])]
  {
    var symbol := RhsEntry(c.stack, rule.rhsLen, 1);
    var token := c.tokens[symbol.token];
    var flags := SetHereDelim(c, token);
    parse.saveTokens := true;
    nodeIdx := AllocNode(c, Redir(0, 0, 0));
    c.nodes := c.nodes[nodeIdx := c.nodes[nodeIdx].(flags := flags, data := Redir(token.offset, 0, 0))];
    assert Owners(c.nodes, |old(c.nodes)|, |c.nodes|) == NewWord(r, k.word);
  }
}
