// Running a pipeline: how descriptors move between the pipe and the two streams of each command,
// who closes them, and what each command finds on its streams.

module PipelineWiring {
  import opened NodeArena
  import opened Context
  import opened Pipelines

  /** A process: the two streams and the two pipe slots, -1 when empty, and its open descriptors. */
  class Process {
    var io0: int
    var io1: int
    var pipe0: int
    var pipe1: int
    var nodes: seq<Node>
    var fds: map<int, Desc>
    var next: nat
    var pipes: nat
    var launched: seq<Launch>
    var isPipe: bool
    var shouldExit: bool
    /** The status with which the process that is waited for ends. */
    var waiting: Option<int>

    constructor (nodes: seq<Node>, fds: map<int, Desc>, next: nat)
      ensures io0 == io1 == pipe0 == pipe1 == -1 && this.nodes == nodes && this.fds == fds && this.next == next
      ensures launched == [] && pipes == 0 && !isPipe && !shouldExit && waiting == None
    {
      io0, io1, pipe0, pipe1 := -1, -1, -1, -1;
      this.nodes, this.fds, this.next, launched, pipes := nodes, fds, next, [], 0;
      isPipe, shouldExit, waiting := false, false, None;
    }

    /** A forked process starts as a copy of its parent. */
    constructor Fork(p: Process)
      ensures io0 == p.io0 && io1 == p.io1 && pipe0 == p.pipe0 && pipe1 == p.pipe1
      ensures nodes == p.nodes && fds == p.fds && next == p.next && shouldExit == p.shouldExit
    {
      io0, io1, pipe0, pipe1 := p.io0, p.io1, p.pipe0, p.pipe1;
      nodes, fds, next, pipes, launched := p.nodes, p.fds, p.next, p.pipes, p.launched;
      isPipe, shouldExit, waiting := p.isPipe, p.shouldExit, p.waiting;
    }

    function Found(): Streams
      reads this
    {
      FoundOn(fds, io0, io1)
    }

    /** The state between two commands of a pipeline. */
    function State(result: int): Ran
      reads this
    {
      Ran(launched, Found(), result, waiting, shouldExit, isPipe, pipes)
    }
  }

  // ---- Descriptors -----------------------------------------------------------------------

  /** The descriptors that the here-documents of a chain still hold. */
  function HereFds(c: Cell): set<int> {
    if c.Nil? then {} else (if IsHere(c) && c.data.fd != -1 then {c.data.fd} else {}) + HereFds(c.rest)
  }

  /** The here-documents of the chain are open, each with its own body, unless none was made. */
  predicate HereReady(fds: map<int, Desc>, c: Cell) {
    c.Cell? ==> (IsHere(c) && c.data.fd != -1 ==> HasBody(fds, c)) && HereReady(fds, c.rest)
  }

  predicate HasBody(fds: map<int, Desc>, c: Cell)
    requires c.Cell? && c.data.Redir?
  {
    c.data.fd in fds && fds[c.data.fd] == HereBody(c.index)
  }

  /** The records of the here-documents of a chain. */
  function HereIds(c: Cell): seq<nat> {
    if c.Nil? then [] else (if IsHere(c) then [c.index] else []) + HereIds(c.rest)
  }

  /** The descriptors that records hold. */
  function HeldBy(nodes: seq<Node>, ids: seq<nat>): set<int> {
    if ids == [] then {} else HeldAt(nodes, ids[0]) + HeldBy(nodes, ids[1..])
  }

  function HeldAt(nodes: seq<Node>, id: nat): set<int> {
    if id < |nodes| && nodes[id].data.Redir? && nodes[id].data.fd != -1 then {nodes[id].data.fd} else {}
  }

  lemma {:induction false} HeldByBoth(nodes: seq<Node>, a: seq<nat>, b: seq<nat>)
    ensures HeldBy(nodes, a + b) == HeldBy(nodes, a) + HeldBy(nodes, b)
  {
    if a == [] {
      assert a + b == b;
    } else {
      HeldByBoth(nodes, a[1..], b);
      assert (a + b)[0] == a[0] && (a + b)[1..] == a[1..] + b;
    }
  }

  lemma {:induction false} HeldByOthers(nodes: seq<Node>, nodes': seq<Node>, ids: seq<nat>)
    requires |nodes| == |nodes'| && forall i :: i in ids && i < |nodes| ==> nodes'[i] == nodes[i]
    ensures HeldBy(nodes', ids) == HeldBy(nodes, ids)
  {
    if ids != [] {
      assert forall i :: i in ids[1..] ==> i in ids;
      assert ids[0] in ids;
      HeldByOthers(nodes, nodes', ids[1..]);
    }
  }

  /** Records in place hold the descriptors of their chain. */
  lemma {:induction false} HeldInPlace(nodes: seq<Node>, c: Cell)
    requires Holds(nodes, c)
    ensures HeldBy(nodes, HereIds(c)) == HereFds(c)
  {
    if c.Cell? {
      HeldInPlace(nodes, c.rest);
      if IsHere(c) {
        assert ([c.index] + HereIds(c.rest))[1..] == HereIds(c.rest);
      } else {
        assert [] + HereIds(c.rest) == HereIds(c.rest);
      }
    }
  }

  lemma {:induction false} HereIdsUsed(c: Cell)
    ensures forall i :: i in HereIds(c) ==> Uses(c, i) > 0
  {
    if c.Cell? { HereIdsUsed(c.rest); }
  }

  /** A slot is empty or holds an open descriptor. */
  predicate SlotOk(p: Process, fd: int)
    reads p
  {
    fd == -1 || fd in p.fds
  }

  /**
   * The open descriptors are those of `base`, the two streams', and those in `others`; none of
   * them is one of the others. New ones are numbered from `next` on.
   */
  ghost predicate TidyFds(fds: map<int, Desc>, next: nat, io0: int, io1: int, base: map<int, Desc>, others: set<int>) {
    && (io0 == -1 || io0 in fds) && (io1 == -1 || io1 in fds) && (io0 != io1 || io0 == -1)
    && (forall f :: f in fds ==> 0 <= f < next)
    && (forall f :: f in fds <==> f in base || (f != -1 && (f == io0 || f == io1)) || f in others)
    && (forall f :: f in base ==> f in fds && fds[f] == base[f] && f != io0 && f != io1 && f !in others)
    && io0 !in others && io1 !in others
  }

  ghost predicate Tidy(p: Process, base: map<int, Desc>, others: set<int>)
    reads p
  {
    TidyFds(p.fds, p.next, p.io0, p.io1, base, others)
  }

  /** The descriptors without a stream's. */
  function Without(fds: map<int, Desc>, fd: int): map<int, Desc> {
    if fd == -1 then fds else fds - {fd}
  }

  /** The stream's descriptor was closed and, if that succeeded, `desc` opened in its place. */
  predicate Replaces(fds: map<int, Desc>, next: nat, io: int, desc: Desc, ok: bool, fds': map<int, Desc>, next': nat,
                     io': int) {
    && fds' == (if ok then Without(fds, io)[next := desc] else Without(fds, io))
    && next' == (if ok then next + 1 else next) && io' == (if ok then next else -1)
  }

  lemma ReplaceInput(fds: map<int, Desc>, next: nat, io0: int, io1: int, base: map<int, Desc>, others: set<int>,
                     desc: Desc)
    requires TidyFds(fds, next, io0, io1, base, others)
    ensures TidyFds(Without(fds, io0)[next := desc], next + 1, next, io1, base, others)
    ensures TidyFds(Without(fds, io0), next, -1, io1, base, others)
  {
  }

  lemma ReplaceOutput(fds: map<int, Desc>, next: nat, io0: int, io1: int, base: map<int, Desc>, others: set<int>,
                      desc: Desc)
    requires TidyFds(fds, next, io0, io1, base, others)
    ensures TidyFds(Without(fds, io1)[next := desc], next + 1, io0, next, base, others)
    ensures TidyFds(Without(fds, io1), next, io0, -1, base, others)
  {
  }

  lemma TakeHere(fds: map<int, Desc>, next: nat, io0: int, io1: int, base: map<int, Desc>, others: set<int>, fd: int)
    requires TidyFds(fds, next, io0, io1, base, others) && fd in others
    ensures fd in Without(fds, io0) && TidyFds(Without(fds, io0), next, fd, io1, base, others - {fd})
  {
  }

  /** Closing or replacing a stream does not touch what belongs to others. */
  lemma OthersStay(fds: map<int, Desc>, next: nat, io0: int, io1: int, base: map<int, Desc>, others: set<int>)
    requires TidyFds(fds, next, io0, io1, base, others)
    ensures forall f :: f in others ==> f in fds && f < next && f != io0 && f != io1
    ensures io0 != -1 ==> io0 in fds && io0 < next && io0 != io1
    ensures io1 != -1 ==> io1 in fds && io1 < next
    ensures next !in fds && -1 !in fds
  {
  }

  /** Closes a descriptor that is open; an empty slot stays empty. */
  method FtCloseFd(p: Process, fd: int) returns (slot: int)
    requires SlotOk(p, fd)
    modifies p`fds
    ensures slot == -1 && p.fds == Without(old(p.fds), fd)
  {
    if fd != -1 {
      p.fds := p.fds - {fd};
    }
    slot := -1;
  }

  method Open(p: Process, desc: Desc, ok: bool) returns (fd: int)
    modifies p`fds, p`next
    ensures ok ==> fd == old(p.next) && p.next == fd + 1 && p.fds == old(p.fds)[fd := desc]
    ensures !ok ==> fd == -1 && p.next == old(p.next) && p.fds == old(p.fds)
  {
    if !ok {
      return -1;
    }
    fd := p.next;
    p.fds := p.fds[fd := desc];
    p.next := p.next + 1;
  }

  /** Closes both streams. */
  method CloseIo(p: Process, ghost base: map<int, Desc>, ghost others: set<int>)
    requires Tidy(p, base, others)
    modifies p`io0, p`io1, p`fds
    ensures Tidy(p, base, others) && p.io0 == p.io1 == -1 && p.fds == old(p.fds) - {old(p.io0), old(p.io1)}
    ensures p.Found() == CLOSED
    ensures forall f :: f in p.fds ==> f in old(p.fds) && p.fds[f] == old(p.fds)[f]
    ensures forall f :: f in others && f in old(p.fds) ==> f in p.fds && p.fds[f] == old(p.fds)[f]
  {
    p.io0 := FtCloseFd(p, p.io0);
    p.io1 := FtCloseFd(p, p.io1);
  }

  // ---- Redirections ----------------------------------------------------------------------

  method OpenInFile(p: Process, w: World, idx: nat) returns (ok: bool)
    requires SlotOk(p, p.io0)
    modifies p`io0, p`fds, p`next
    ensures ok <==> w.opens(idx) && !p.shouldExit
    ensures Replaces(old(p.fds), old(p.next), old(p.io0), FileIn(idx), ok, p.fds, p.next, p.io0)
  {
    p.io0 := FtCloseFd(p, p.io0);
    if p.shouldExit {
      return false;
    }
    p.io0 := Open(p, FileIn(idx), w.opens(idx));
    ok := p.io0 != -1;
  }

  method OpenOutFile(p: Process, w: World, idx: nat, append: bool) returns (ok: bool)
    requires SlotOk(p, p.io1)
    modifies p`io1, p`fds, p`next
    ensures ok <==> w.opens(idx) && !p.shouldExit
    ensures Replaces(old(p.fds), old(p.next), old(p.io1), if append then FileAppend(idx) else FileOut(idx), ok,
                     p.fds, p.next, p.io1)
  {
    p.io1 := FtCloseFd(p, p.io1);
    if p.shouldExit {
      return false;
    }
    p.io1 := Open(p, if append then FileAppend(idx) else FileOut(idx), w.opens(idx));
    ok := p.io1 != -1;
  }

  /** The stream takes over the descriptor, if the record still holds one; the record lets go of it. */
  method OpenHereFile(p: Process, idx: nat) returns (ok: bool)
    requires idx < |p.nodes| && p.nodes[idx].data.Redir? && SlotOk(p, p.io0)
    modifies p`io0, p`fds, p`nodes
    ensures ok <==> old(p.nodes)[idx].data.fd != -1
    ensures p.io0 == old(p.nodes)[idx].data.fd
    ensures p.fds == Without(old(p.fds), old(p.io0))
    ensures p.nodes == old(p.nodes)[idx := old(p.nodes)[idx].(data := old(p.nodes)[idx].data.(fd := -1))]
  {
    p.io0 := FtCloseFd(p, p.io0);
    p.io0 := p.nodes[idx].data.fd;
    p.nodes := p.nodes[idx := p.nodes[idx].(data := p.nodes[idx].data.(fd := -1))];
    ok := p.io0 != -1;
  }

  method OpenBasedOnFlag(p: Process, w: World, idx: nat) returns (ok: bool)
    requires idx < |p.nodes| && p.nodes[idx].data.Redir? && SlotOk(p, p.io0) && SlotOk(p, p.io1)
    modifies p`io0, p`io1, p`fds, p`next, p`nodes
    ensures var flags := old(p.nodes)[idx].flags; var fd := old(p.nodes)[idx].data.fd;
      if RedirIn in flags then
        && ok == (w.opens(idx) && !p.shouldExit) && p.io1 == old(p.io1) && p.nodes == old(p.nodes)
        && Replaces(old(p.fds), old(p.next), old(p.io0), FileIn(idx), ok, p.fds, p.next, p.io0)
      else if RedirOut !in flags && RedirHere in flags then
        && ok == (fd != -1) && p.io0 == fd && p.io1 == old(p.io1) && p.next == old(p.next)
        && p.fds == Without(old(p.fds), old(p.io0))
        && p.nodes == old(p.nodes)[idx := old(p.nodes)[idx].(data := old(p.nodes)[idx].data.(fd := -1))]
      else if RedirOut in flags || RedirAppend in flags then
        && ok == (w.opens(idx) && !p.shouldExit) && p.io0 == old(p.io0) && p.nodes == old(p.nodes)
        && Replaces(old(p.fds), old(p.next), old(p.io1), if RedirOut in flags then FileOut(idx) else FileAppend(idx),
                    ok, p.fds, p.next, p.io1)
      else
        && ok && p.io0 == old(p.io0) && p.io1 == old(p.io1) && p.next == old(p.next) && p.fds == old(p.fds)
        && p.nodes == old(p.nodes)
  {
    var node := p.nodes[idx];
    ok := true;
    if RedirIn in node.flags {
      ok := OpenInFile(p, w, idx);
    } else if RedirOut in node.flags {
      ok := OpenOutFile(p, w, idx, false);
    } else if RedirHere in node.flags {
      ok := OpenHereFile(p, idx);
    } else if RedirAppend in node.flags {
      ok := OpenOutFile(p, w, idx, true);
    }
  }

  /** The records that a chain's cells stand for are only used once. */
  ghost predicate UsedOnce(c: Cell) {
    forall i: nat :: Uses(c, i) <= 1
  }

  lemma FirstUsedOnce(c: Cell)
    requires UsedOnce(c) && c.Cell?
    ensures UsedOnce(c.first) && UsedOnce(c.second) && UsedOnce(c.rest)
    ensures Uses(c.rest, c.index) == 0
    ensures forall i: nat :: Uses(c.second, i) > 0 ==> Uses(c.rest, i) == 0
  {
    forall i: nat ensures Uses(c.first, i) <= 1 && Uses(c.second, i) <= 1 && Uses(c.rest, i) <= 1
      && (Uses(c.second, i) > 0 ==> Uses(c.rest, i) == 0) {
      assert Uses(c, i) <= 1;
    }
    assert Uses(c, c.index) <= 1;
  }

  /** The here-documents of a chain have descriptors of their own. */
  lemma {:induction false} HereFdIsOther(fds: map<int, Desc>, c: Cell, fd: int)
    requires HereReady(fds, c) && fd in HereFds(c)
    ensures fd in fds && fds[fd].HereBody? && Uses(c, fds[fd].index) > 0
  {
    if !(IsHere(c) && fd == c.data.fd && fd != -1) {
      HereFdIsOther(fds, c.rest, fd);
    }
  }

  lemma {:induction false} HereStaysReady(fds: map<int, Desc>, fds': map<int, Desc>, c: Cell)
    requires HereReady(fds, c) && forall f :: f in HereFds(c) && f in fds ==> f in fds' && fds'[f] == fds[f]
    ensures HereReady(fds', c)
  {
    if c.Cell? {
      HereStaysReady(fds, fds', c.rest);
    }
  }

  /** What one redirection makes of the descriptors and of the streams. */
  predicate Opened(c: Cell, ok: bool, fds: map<int, Desc>, next: nat, io0: int, io1: int, fds': map<int, Desc>,
                   next': nat, io0': int, io1': int)
    requires c.Cell? && c.data.Redir?
  {
    if IsHere(c) then
      ok == (c.data.fd != -1) && fds' == Without(fds, io0) && next' == next && io0' == c.data.fd && io1' == io1
    else if IsInput(c) then io1' == io1 && Replaces(fds, next, io0, Target(c), ok, fds', next', io0')
    else io0' == io0 && Replaces(fds, next, io1, Target(c), ok, fds', next', io1')
  }

  function FoundOn(fds: map<int, Desc>, io0: int, io1: int): Streams {
    Streams(if io0 in fds then Some(fds[io0]) else None, if io1 in fds then Some(fds[io1]) else None)
  }

  /** Nothing is left open or closed twice, and the stream finds what it is redirected to. */
  lemma OpenedTidy(c: Cell, ok: bool, fds: map<int, Desc>, next: nat, io0: int, io1: int, fds': map<int, Desc>,
                   next': nat, io0': int, io1': int, base: map<int, Desc>, beyond: set<int>)
    requires c.Cell? && c.data.Redir? && Opened(c, ok, fds, next, io0, io1, fds', next', io0', io1')
    requires HereReady(fds, c) && HereFds(c) !! beyond && TidyFds(fds, next, io0, io1, base, HereFds(c) + beyond)
    requires IsHere(c) && c.data.fd != -1 ==> c.data.fd !in HereFds(c.rest)
    ensures TidyFds(fds', next', io0', io1', base, HereFds(c.rest) + beyond) && HereFds(c.rest) !! beyond
    ensures HereReady(fds', c.rest)
    ensures var target := if ok then Some(Target(c)) else None; var found := FoundOn(fds, io0, io1);
      FoundOn(fds', io0', io1') == if IsInput(c) then found.(stdin := target) else found.(stdout := target)
    ensures forall f :: f in beyond && f in fds ==> f in fds' && fds'[f] == fds[f]
  {
    hide HereReady, HereFds, TidyFds;
    var others := HereFds(c) + beyond;
    HereSplits(c, beyond);
    ReadyParts(fds, c);
    OthersStay(fds, next, io0, io1, base, others);
    if IsHere(c) && c.data.fd == -1 {
      ReplaceInput(fds, next, io0, io1, base, others, Target(c));
    } else if IsHere(c) {
      TakeHere(fds, next, io0, io1, base, others, c.data.fd);
    } else if IsInput(c) {
      ReplaceInput(fds, next, io0, io1, base, others, Target(c));
    } else {
      ReplaceOutput(fds, next, io0, io1, base, others, Target(c));
    }
    HereStaysReady(fds, fds', c.rest);
  }

  /** A here-document's descriptor is not that of another one in the chain. */
  lemma OwnFd(fds: map<int, Desc>, c: Cell)
    requires c.Cell? && HereReady(fds, c) && IsHere(c) && c.data.fd != -1 && UsedOnce(c)
    ensures c.data.fd !in HereFds(c.rest)
  {
    FirstUsedOnce(c);
    if c.data.fd in HereFds(c.rest) {
      HereFdIsOther(fds, c.rest, c.data.fd);
      assert false;
    }
  }

  /** One redirection: what its stream finds, and that nothing is left open or closed twice. */
  method ProcessOne(p: Process, w: World, idx: nat, ghost c: Cell, ghost base: map<int, Desc>, ghost beyond: set<int>)
    returns (ok: bool)
    requires c.Cell? && c.index == idx && Holds(p.nodes, c) && AreRedirs(c) && UsedOnce(c) && HereReady(p.fds, c)
    requires Tidy(p, base, HereFds(c) + beyond) && HereFds(c) !! beyond
    modifies p`io0, p`io1, p`fds, p`next, p`nodes
    ensures Holds(p.nodes, c.rest) && HereReady(p.fds, c.rest) && Tidy(p, base, HereFds(c.rest) + beyond)
    ensures HereFds(c.rest) !! beyond
    ensures ok == CanOpen(c, w, p.shouldExit)
    ensures var target := if ok then Some(Target(c)) else None;
      p.Found() == if IsInput(c) then old(p.Found()).(stdin := target) else old(p.Found()).(stdout := target)
    ensures forall f :: f in beyond && f in old(p.fds) ==> f in p.fds && p.fds[f] == old(p.fds)[f]
    ensures |p.nodes| == |old(p.nodes)| && forall i :: 0 <= i < |p.nodes| && i != idx ==> p.nodes[i] == old(p.nodes)[i]
    ensures p.nodes[idx].next == Head(c.rest) && (IsHere(c) ==> HeldAt(p.nodes, idx) == {})
  {
    hide Uses, UsedOnce, Holds, TidyFds, HereReady, HereFds, Replaces, Without;
    FirstUsedOnce(c);
    HeldRecord(p.nodes, c);
    if IsHere(c) && c.data.fd != -1 { OwnFd(p.fds, c); }
    SlotsOk(p, base, HereFds(c) + beyond);
    ok := OpenBasedOnFlag(p, w, idx);
    HoldsWithout(old(p.nodes), p.nodes, c.rest, idx);
    OpenedTidy(c, ok, old(p.fds), old(p.next), old(p.io0), old(p.io1), p.fds, p.next, p.io0, p.io1, base, beyond);
  }

  lemma SlotsOk(p: Process, base: map<int, Desc>, others: set<int>)
    requires Tidy(p, base, others)
    ensures SlotOk(p, p.io0) && SlotOk(p, p.io1)
  {
  }

  lemma HereSplits(c: Cell, beyond: set<int>)
    requires c.Cell? && HereFds(c) !! beyond
    ensures HereFds(c.rest) !! beyond && HereFds(c.rest) <= HereFds(c)
    ensures !IsHere(c) || c.data.fd == -1 ==> HereFds(c) + beyond == HereFds(c.rest) + beyond
    ensures IsHere(c) && c.data.fd != -1 ==> c.data.fd in HereFds(c)
    ensures IsHere(c) && c.data.fd != -1 && c.data.fd !in HereFds(c.rest) ==>
              HereFds(c) + beyond - {c.data.fd} == HereFds(c.rest) + beyond
  {
  }

  lemma ReadyParts(fds: map<int, Desc>, c: Cell)
    requires c.Cell? && HereReady(fds, c)
    ensures HereReady(fds, c.rest) && (IsHere(c) && c.data.fd != -1 ==> HasBody(fds, c))
  {
  }

  lemma HeldRecord(nodes: seq<Node>, c: Cell)
    requires Holds(nodes, c) && c.Cell?
    ensures 0 < c.index < |nodes| && nodes[c.index] == Linked(c) && Holds(nodes, c.first) && Holds(nodes, c.second)
    ensures Holds(nodes, c.rest)
  {
  }

  lemma HoldsWithout(nodes: seq<Node>, nodes': seq<Node>, c: Cell, idx: nat)
    requires Holds(nodes, c) && Uses(c, idx) == 0 && |nodes| == |nodes'|
    requires forall i :: 0 <= i < |nodes| && i != idx ==> nodes'[i] == nodes[i]
    ensures Holds(nodes', c)
  {
    HoldsFrame(nodes, nodes', c);
  }

  /** A chain in place starts at its first record, or at the sentinel. */
  lemma ChainStart(nodes: seq<Node>, c: Cell)
    requires Holds(nodes, c) && AreRedirs(c) && nodes != [] && nodes[0] == SENTINEL
    ensures Head(c) < |nodes| && (nodes[Head(c)].data.Redir? <==> c.Cell?)
  {
  }

  lemma HeadUsed(c: Cell)
    requires c.Cell?
    ensures Uses(c, c.index) > 0 && forall i: nat :: Uses(c.rest, i) > 0 ==> Uses(c, i) > 0
  {
  }

  /** No record outside of the chain has changed. */
  ghost predicate Untouched(before: seq<Node>, after: seq<Node>, c: Cell) {
    |before| == |after| && forall i: nat :: i < |after| && Uses(c, i) == 0 ==> after[i] == before[i]
  }

  lemma RedirectStep(c: Cell, w: World, exit: bool, s: Streams)
    requires c.Cell? && AreRedirs(c)
    ensures var target := if CanOpen(c, w, exit) then Some(Target(c)) else None;
      var s' := if IsInput(c) then s.(stdin := target) else s.(stdout := target);
      && AreRedirs(c.rest)
      && Redirect(c, w, exit, s) == if CanOpen(c, w, exit) then Redirect(c.rest, w, exit, s') else Redirected(false, s')
  {
  }

  /** The records dealt with so far hold nothing any more. */
  lemma OneLetGo(nodes: seq<Node>, nodes': seq<Node>, c: Cell, done: seq<nat>)
    requires c.Cell? && UsedOnce(c) && |nodes| == |nodes'| && HeldBy(nodes, done) == {}
    requires forall i :: 0 <= i < |nodes| && i != c.index ==> nodes'[i] == nodes[i]
    requires IsHere(c) ==> HeldAt(nodes', c.index) == {}
    requires forall i :: i in done ==> Uses(c, i) == 0
    ensures var more := if IsHere(c) then [c.index] else [];
      && HereIds(c) == more + HereIds(c.rest) && HeldBy(nodes', done + more) == {}
      && forall i :: i in done + more ==> Uses(c.rest, i) == 0
  {
    hide UsedOnce, Uses;
    FirstUsedOnce(c);
    HeadUsed(c);
    HeldByOthers(nodes, nodes', done);
    var more := if IsHere(c) then [c.index] else [];
    HeldByBoth(nodes', done, more);
    if IsHere(c) { assert HeldBy(nodes', [c.index]) == HeldAt(nodes', c.index) + HeldBy(nodes', [c.index][1..]); }
  }

  /** The chain is dealt with up to its rest: the records of here-documents so far hold nothing any more. */
  ghost predicate Through(before: seq<Node>, after: seq<Node>, chain: Cell, rest: Cell, done: seq<nat>) {
    && HereIds(chain) == done + HereIds(rest) && HeldBy(after, done) == {} && Untouched(before, after, chain)
    && (forall i :: i in done ==> Uses(rest, i) == 0) && forall i: nat :: Uses(rest, i) > 0 ==> Uses(chain, i) > 0
  }

  lemma NothingDone(nodes: seq<Node>, chain: Cell)
    ensures Through(nodes, nodes, chain, chain, [])
  {
    NothingHeld(nodes);
    assert [] + HereIds(chain) == HereIds(chain);
  }

  lemma OneDone(before: seq<Node>, nodes: seq<Node>, nodes': seq<Node>, chain: Cell, rest: Cell, done: seq<nat>)
    returns (done': seq<nat>)
    requires rest.Cell? && UsedOnce(rest) && Through(before, nodes, chain, rest, done) && |nodes| == |nodes'|
    requires forall i :: 0 <= i < |nodes| && i != rest.index ==> nodes'[i] == nodes[i]
    requires IsHere(rest) ==> HeldAt(nodes', rest.index) == {}
    ensures Through(before, nodes', chain, rest.rest, done')
  {
    hide Uses, UsedOnce, HereIds, HeldBy;
    HeadUsed(rest);
    OneLetGo(nodes, nodes', rest, done);
    var more := if IsHere(rest) then [rest.index] else [];
    assert done + (more + HereIds(rest.rest)) == (done + more) + HereIds(rest.rest);
    done' := done + more;
  }

  lemma AllDone(before: seq<Node>, nodes: seq<Node>, chain: Cell, rest: Cell, done: seq<nat>)
    requires Through(before, nodes, chain, rest, done) && Holds(nodes, rest)
    ensures Untouched(before, nodes, chain) && HeldBy(nodes, HereIds(chain)) == HereFds(rest)
  {
    hide Uses, Holds, HereIds, HereFds, HeldBy, Untouched;
    HeldByBoth(nodes, done, HereIds(rest));
    HeldInPlace(nodes, rest);
  }

  lemma NothingHeld(nodes: seq<Node>)
    ensures HeldBy(nodes, []) == {}
  {
  }

  /**
   * The redirections of a chain up to one that fails. What is left of its here-documents is what
   * their records still hold.
   */
  method ProcessRedirection(p: Process, w: World, redirIdx: nat, ghost chain: Cell, ghost base: map<int, Desc>,
                            ghost beyond: set<int>)
    returns (ok: bool, ghost left: set<int>)
    requires p.nodes != [] && p.nodes[0] == SENTINEL
    requires Holds(p.nodes, chain) && AreRedirs(chain) && UsedOnce(chain) && HereReady(p.fds, chain)
    requires redirIdx == Head(chain)
    requires Tidy(p, base, HereFds(chain) + beyond) && HereFds(chain) !! beyond
    modifies p`io0, p`io1, p`fds, p`next, p`nodes
    ensures Redirected(ok, p.Found()) == Redirect(chain, w, p.shouldExit, old(p.Found()))
    ensures Tidy(p, base, left + beyond) && Untouched(old(p.nodes), p.nodes, chain)
    ensures left == HeldBy(p.nodes, HereIds(chain)) && left <= HereFds(chain)
    ensures forall f :: f in beyond && f in old(p.fds) ==> f in p.fds && p.fds[f] == old(p.fds)[f]
  {
    hide Uses, UsedOnce, Holds, HereReady, TidyFds, Redirect, AreRedirs, HeldBy, HereIds, HereFds, CanOpen, Target,
      Untouched, Through;
    ghost var rest, done := chain, [];
    var idx := redirIdx;
    ghost var all := Redirect(chain, w, p.shouldExit, p.Found());
    ChainStart(p.nodes, chain);
    NothingDone(p.nodes, chain);
    while p.nodes[idx].data.Redir?
      invariant Holds(p.nodes, rest) && AreRedirs(rest) && UsedOnce(rest) && HereReady(p.fds, rest)
      invariant idx == Head(rest) < |p.nodes| && (p.nodes[idx].data.Redir? <==> rest.Cell?)
      invariant Tidy(p, base, HereFds(rest) + beyond) && HereFds(rest) !! beyond && HereFds(rest) <= HereFds(chain)
      invariant all == Redirect(rest, w, p.shouldExit, p.Found())
      invariant Through(old(p.nodes), p.nodes, chain, rest, done) && p.nodes[0] == SENTINEL
      invariant forall f :: f in beyond && f in old(p.fds) ==> f in p.fds && p.fds[f] == old(p.fds)[f]
      decreases rest
    {
      RedirectStep(rest, w, p.shouldExit, p.Found());
      FirstUsedOnce(rest);
      HeldRecord(p.nodes, rest);
      HereSplits(rest, beyond);
      label one:
      ok := ProcessOne(p, w, idx, rest, base, beyond);
      done := OneDone(old(p.nodes), old@one(p.nodes), p.nodes, chain, rest, done);
      if !ok {
        left := HereFds(rest.rest);
        AllDone(old(p.nodes), p.nodes, chain, rest.rest, done);
        return;
      }
      ChainStart(p.nodes, rest.rest);
      idx := p.nodes[idx].next;
      rest := rest.rest;
    }
    ok, left := true, {};
    NoRedirs(w, p.shouldExit, p.Found());
    AllDone(old(p.nodes), p.nodes, chain, rest, done);
  }

  lemma NoRedirs(w: World, exit: bool, s: Streams)
    ensures Redirect(Nil, w, exit, s) == Redirected(true, s) && HereFds(Nil) == {} && HereIds(Nil) == []
  {
  }

  // ---- Commands --------------------------------------------------------------------------

  /** What a child is given, if its redirections succeed; it closes what it does not need. */
  method RunInChild(p: Process, w: World, redirIdx: nat, ghost chain: Cell, ghost base: map<int, Desc>,
                    ghost beyond: set<int>)
    returns (found: Option<Streams>)
    requires p.nodes != [] && p.nodes[0] == SENTINEL
    requires Holds(p.nodes, chain) && AreRedirs(chain) && UsedOnce(chain) && HereReady(p.fds, chain)
    requires redirIdx == Head(chain)
    requires Tidy(p, base, HereFds(chain) + beyond) && HereFds(chain) !! beyond
    requires (p.pipe0 == -1 || p.pipe0 in base) && p.pipe1 == -1
    ensures var r := Redirect(chain, w, p.shouldExit, p.Found()); found == if r.ok then Some(r.streams) else None
  {
    hide TidyFds, Holds, HereReady, Redirect, HeldBy;
    var child := new Process.Fork(p);
    var ok, left := ProcessRedirection(child, w, redirIdx, chain, base, beyond);
    if !ok {
      return None;
    }
    found := Some(child.Found());
    CloseAllFds(child, base, left + beyond);
    assert child.io0 == child.io1 == child.pipe0 == child.pipe1 == -1;
  }

  lemma BaseIsOpen(p: Process, base: map<int, Desc>, others: set<int>)
    requires Tidy(p, base, others)
    ensures forall f :: f in base ==> f in p.fds
    ensures -1 !in p.fds
  {
  }

  /** Closes what the streams and the pipe slots hold, and nothing else. */
  method CloseAllFds(p: Process, ghost base: map<int, Desc>, ghost others: set<int>)
    requires Tidy(p, base, others) && (p.pipe0 == -1 || p.pipe0 in base) && p.pipe1 == -1
    modifies p`io0, p`io1, p`pipe0, p`pipe1, p`fds
    ensures p.io0 == p.io1 == p.pipe0 == p.pipe1 == -1
    ensures p.fds == old(p.fds) - {old(p.io0), old(p.io1), old(p.pipe0), old(p.pipe1)}
  {
    hide TidyFds;
    BaseIsOpen(p, base, others);
    CloseIo(p, base, others);
    BaseIsOpen(p, base, others);
    p.pipe0 := FtCloseFd(p, p.pipe0);
    p.pipe1 := FtCloseFd(p, p.pipe1);
  }

  /** Forks a subshell, a program, or a builtin of a pipeline; the shell closes the streams it gave away. */
  method ForkCommand(p: Process, w: World, redirIdx: nat, ghost c: Cell, ghost base: map<int, Desc>,
                     ghost beyond: set<int>, idx: nat)
    returns (result: int)
    requires p.nodes != [] && p.nodes[0] == SENTINEL && c.Cell? && c.index == idx && redirIdx == Head(c.second)
    requires Holds(p.nodes, c.second) && AreRedirs(c.second) && UsedOnce(c.second) && HereReady(p.fds, c.second)
    requires Tidy(p, base, HereFds(c.second) + beyond) && HereFds(c.second) !! beyond
    requires (p.pipe0 == -1 || p.pipe0 in base) && p.pipe1 == -1
    modifies p`io0, p`io1, p`fds, p`launched, p`waiting
    ensures p.State(result) == RunForked(c, w, old(p.State(0)))
    ensures Tidy(p, base, HereFds(c.second) + beyond)
    ensures forall f :: f in beyond && f in old(p.fds) ==> f in p.fds && p.fds[f] == old(p.fds)[f]
  {
    hide TidyFds, Holds, HereReady, Redirect, HereFds;
    var a := w.attempts(idx);
    if !a.forks {
      return 1;
    }
    var found := RunInChild(p, w, redirIdx, c.second, base, beyond);
    CloseIo(p, base, HereFds(c.second) + beyond);
    p.launched := p.launched + if found.Some? then [Launch(idx, true, found.value)] else [];
    p.waiting := Some(if found.Some? then a.status else 1);
    result := 0;
  }

  /**
   * Runs a command, in a child or in the shell itself. In the shell itself the here-documents it
   * redirects from are taken from their records.
   */
  method ExecuteSimpleCommand(p: Process, w: World, idx: nat, ghost c: Cell, ghost base: map<int, Desc>,
                              ghost beyond: set<int>)
    returns (result: int, ghost left: set<int>)
    requires p.nodes != [] && p.nodes[0] == SENTINEL && c.Cell? && c.data.Command? && c.index == idx
    requires Holds(p.nodes, c) && AreRedirs(c.second) && UsedOnce(c) && HereReady(p.fds, c.second)
    requires Tidy(p, base, HereFds(c.second) + beyond) && HereFds(c.second) !! beyond
    requires (p.pipe0 == -1 || p.pipe0 in base) && p.pipe1 == -1
    modifies p`io0, p`io1, p`fds, p`next, p`nodes, p`launched, p`waiting, p`shouldExit
    ensures p.State(result) == RunCommand(c, w, old(p.State(0)))
    ensures Tidy(p, base, left + beyond) && Untouched(old(p.nodes), p.nodes, c.second)
    ensures left == HeldBy(p.nodes, HereIds(c.second)) && left <= HereFds(c.second)
    ensures forall f :: f in beyond && f in old(p.fds) ==> f in p.fds && p.fds[f] == old(p.fds)[f]
  {
    hide TidyFds, Holds, HereReady, Uses, UsedOnce, HereFds, Redirect, RunForked, HeldBy, HereIds, AreRedirs;
    HeldRecord(p.nodes, c);
    FirstUsedOnce(c);
    HeldInPlace(p.nodes, c.second);
    left := HereFds(c.second);
    var redirIdx := p.nodes[idx].data.redirHead;
    var a := w.attempts(idx);
    if InSubshell in p.nodes[idx].flags {
      result := ForkCommand(p, w, redirIdx, c, base, beyond, idx);
      return;
    }
    if !a.built {
      return 1, left;
    }
    if a.kind.External? || (p.isPipe && !a.kind.Unknown?) {
      result := ForkCommand(p, w, redirIdx, c, base, beyond, idx);
      return;
    }
    result, left := RunInShell(p, w, redirIdx, c, base, beyond, idx);
  }

  /** Redirects the shell itself; a builtin that cannot be redirected leaves the streams as they are. */
  method RunInShell(p: Process, w: World, redirIdx: nat, ghost c: Cell, ghost base: map<int, Desc>,
                    ghost beyond: set<int>, idx: nat)
    returns (result: int, ghost left: set<int>)
    requires p.nodes != [] && p.nodes[0] == SENTINEL && c.Cell? && c.index == idx && redirIdx == Head(c.second)
    requires Holds(p.nodes, c.second) && AreRedirs(c.second) && UsedOnce(c.second) && HereReady(p.fds, c.second)
    requires Tidy(p, base, HereFds(c.second) + beyond) && HereFds(c.second) !! beyond
    requires w.attempts(idx).built && InSubshell !in c.flags && !InChild(c, w.attempts(idx).kind, p.isPipe)
    modifies p`io0, p`io1, p`fds, p`next, p`nodes, p`launched, p`shouldExit
    ensures p.State(result) == RunCommand(c, w, old(p.State(0)))
    ensures Tidy(p, base, left + beyond) && Untouched(old(p.nodes), p.nodes, c.second)
    ensures left == HeldBy(p.nodes, HereIds(c.second)) && left <= HereFds(c.second)
    ensures forall f :: f in beyond && f in old(p.fds) ==> f in p.fds && p.fds[f] == old(p.fds)[f]
  {
    hide TidyFds, Holds, HereReady, Uses, UsedOnce, HereFds, Redirect, RunForked, HeldBy, HereIds, AreRedirs;
    var a := w.attempts(idx);
    var ok;
    ok, left := ProcessRedirection(p, w, redirIdx, c.second, base, beyond);
    if a.kind.Builtin? {
      if !ok {
        return 1, left;
      }
      p.launched := p.launched + [Launch(idx, false, p.Found())];
      p.shouldExit := p.shouldExit || a.exits;
      result := a.status;
    } else {
      result := if !ok then 1 else if a.kind.Unknown? then 127 else 0;
    }
    CloseIo(p, base, left + beyond);
  }

  // ---- Pipelines -------------------------------------------------------------------------

  function PipeHereFds(c: Cell): set<int> {
    if c.Nil? then {} else HereFds(c.second) + PipeHereFds(c.rest)
  }

  /** The records of the here-documents that the commands of a pipeline are redirected from. */
  function PipeHereIds(c: Cell): seq<nat> {
    if c.Nil? then [] else HereIds(c.second) + PipeHereIds(c.rest)
  }

  predicate PipeReady(fds: map<int, Desc>, c: Cell) {
    c.Cell? ==> HereReady(fds, c.second) && PipeReady(fds, c.rest)
  }

  lemma {:induction false} PipeHeldInPlace(nodes: seq<Node>, c: Cell)
    requires Holds(nodes, c)
    ensures HeldBy(nodes, PipeHereIds(c)) == PipeHereFds(c)
  {
    if c.Cell? {
      PipeHeldInPlace(nodes, c.rest);
      HeldInPlace(nodes, c.second);
      HeldByBoth(nodes, HereIds(c.second), PipeHereIds(c.rest));
    }
  }

  lemma {:induction false} PipeFdIsOther(fds: map<int, Desc>, c: Cell, fd: int)
    requires PipeReady(fds, c) && fd in PipeHereFds(c)
    ensures fd in fds && fds[fd].HereBody? && Uses(c, fds[fd].index) > 0
  {
    if fd in HereFds(c.second) {
      HereFdIsOther(fds, c.second, fd);
    } else {
      PipeFdIsOther(fds, c.rest, fd);
    }
  }

  /** The here-documents of different commands hold different descriptors. */
  lemma CommandsApart(fds: map<int, Desc>, c: Cell)
    requires c.Cell? && UsedOnce(c) && PipeReady(fds, c)
    ensures HereFds(c.second) !! PipeHereFds(c.rest)
    ensures forall f :: f in PipeHereFds(c.rest) ==> f in fds
  {
    FirstUsedOnce(c);
    forall fd | fd in PipeHereFds(c.rest) ensures fd in fds && fd !in HereFds(c.second) {
      PipeFdIsOther(fds, c.rest, fd);
      if fd in HereFds(c.second) {
        HereFdIsOther(fds, c.second, fd);
        assert false;
      }
    }
  }

  lemma {:induction false} PipeStaysReady(fds: map<int, Desc>, fds': map<int, Desc>, c: Cell)
    requires PipeReady(fds, c) && forall f :: f in PipeHereFds(c) && f in fds ==> f in fds' && fds'[f] == fds[f]
    ensures PipeReady(fds', c)
  {
    if c.Cell? {
      HereStaysReady(fds, fds', c.second);
      PipeStaysReady(fds, fds', c.rest);
    }
  }

  /** What is open for good once a stream left from before is overwritten by a pipe's end. */
  function Kept(base: map<int, Desc>, fds: map<int, Desc>, io1: int): map<int, Desc> {
    if io1 in fds then base[io1 := fds[io1]] else base
  }

  lemma PipeTidy(fds: map<int, Desc>, next: nat, io0: int, io1: int, base: map<int, Desc>, others: set<int>, r: Desc,
                 w: Desc)
    requires TidyFds(fds, next, io0, io1, base, others)
    ensures TidyFds(fds[next := r][next + 1 := w], next + 2, io0, next + 1, Kept(base, fds, io1)[next := r], others)
    ensures next !in Kept(base, fds, io1) && next !in fds
  {
  }

  lemma HandOver(fds: map<int, Desc>, next: nat, base: map<int, Desc>, others: set<int>, fd: int, r: Desc)
    requires TidyFds(fds, next, -1, -1, base[fd := r], others) && fd !in base && fd >= 0
    ensures TidyFds(fds, next, fd, -1, base, others) && fd in fds && fds[fd] == r && -1 !in fds
  {
    assert fd in base[fd := r];
    forall f | f in base ensures f in fds && fds[f] == base[f] && f != fd && f !in others {
      assert f in base[fd := r];
    }
  }

  method Pipe(p: Process)
    modifies p`pipe0, p`pipe1, p`fds, p`next, p`pipes
    ensures p.pipe0 == old(p.next) && p.pipe1 == old(p.next) + 1 && p.next == old(p.next) + 2
    ensures p.pipes == old(p.pipes) + 1
    ensures p.fds == old(p.fds)[p.pipe0 := PipeRead(old(p.pipes))][p.pipe1 := PipeWrite(old(p.pipes))]
  {
    p.pipe0 := Open(p, PipeRead(p.pipes), true);
    p.pipe1 := Open(p, PipeWrite(p.pipes), true);
    p.pipes := p.pipes + 1;
  }

  /** Puts the write end of a new pipe on the output; what was there before is not closed. */
  method ConnectPipe(p: Process, ghost c: Cell, ghost base: map<int, Desc>, ghost beyond: set<int>)
    requires HereReady(p.fds, c) && Tidy(p, base, HereFds(c) + beyond) && p.pipe0 == p.pipe1 == -1
    modifies p`io1, p`pipe0, p`pipe1, p`fds, p`next, p`pipes
    ensures p.pipe0 == old(p.next) && p.pipe1 == -1 && p.pipes == old(p.pipes) + 1
    ensures p.pipe0 !in Kept(base, old(p.fds), old(p.io1)) && HereReady(p.fds, c)
    ensures Tidy(p, Kept(base, old(p.fds), old(p.io1))[p.pipe0 := PipeRead(old(p.pipes))], HereFds(c) + beyond)
    ensures p.Found() == old(p.Found()).(stdout := Some(PipeWrite(old(p.pipes))))
    ensures forall f :: f in beyond && f in old(p.fds) ==> f in p.fds && p.fds[f] == old(p.fds)[f]
  {
    hide TidyFds, HereReady, HereFds, Kept;
    PipeTidy(p.fds, p.next, p.io0, p.io1, base, HereFds(c) + beyond, PipeRead(p.pipes), PipeWrite(p.pipes));
    OthersStay(p.fds, p.next, p.io0, p.io1, base, HereFds(c) + beyond);
    Pipe(p);
    p.io1 := p.pipe1;
    p.pipe1 := -1;
    HereStaysReady(old(p.fds), p.fds, c);
  }

  /** Closes the streams and makes the read end of the pipe the next input. */
  method TakePipe(p: Process, ghost base: map<int, Desc>, ghost others: set<int>, ghost r: Desc)
    requires p.pipe0 >= 0 && p.pipe0 !in base && Tidy(p, base[p.pipe0 := r], others)
    modifies p`io0, p`io1, p`pipe0, p`fds
    ensures p.io1 == p.pipe0 == -1 && Tidy(p, base, others) && p.Found() == Streams(Some(r), None)
    ensures forall f :: f in others && f in old(p.fds) ==> f in p.fds && p.fds[f] == old(p.fds)[f]
  {
    hide TidyFds;
    CloseIo(p, base[p.pipe0 := r], others);
    HandOver(p.fds, p.next, base, others, p.pipe0, r);
    p.io0 := p.pipe0;
    p.pipe0 := -1;
  }

  /** The command writes into a new pipe, whose other end becomes the next command's input. */
  method PipeAndExecuteSimpleCommand(p: Process, w: World, idx: nat, ghost c: Cell, ghost base: map<int, Desc>,
                                     ghost beyond: set<int>)
    returns (result: int, ghost left: set<int>)
    requires p.nodes != [] && p.nodes[0] == SENTINEL && c.Cell? && c.data.Command? && c.index == idx
    requires Holds(p.nodes, c) && AreRedirs(c.second) && UsedOnce(c) && HereReady(p.fds, c.second) && c.rest.Cell?
    requires Tidy(p, base, HereFds(c.second) + beyond) && HereFds(c.second) !! beyond
    requires p.pipe0 == p.pipe1 == -1 && p.isPipe
    modifies p
    ensures p.State(result) == RunOne(c, w, old(p.State(0)))
    ensures p.io1 == p.pipe0 == p.pipe1 == -1
    ensures Tidy(p, Kept(base, old(p.fds), old(p.io1)), left + beyond) && Untouched(old(p.nodes), p.nodes, c.second)
    ensures left == HeldBy(p.nodes, HereIds(c.second)) && left <= HereFds(c.second)
    ensures forall f :: f in beyond && f in old(p.fds) ==> f in p.fds && p.fds[f] == old(p.fds)[f]
  {
    hide TidyFds, Holds, HereReady, Uses, UsedOnce, HereFds, HeldBy, HereIds, RunCommand, Kept, AreRedirs;
    ghost var r, kept := PipeRead(p.pipes), Kept(base, p.fds, p.io1);
    ConnectPipe(p, c.second, base, beyond);
    ghost var base' := kept[p.pipe0 := r];
    result, left := ExecuteSimpleCommand(p, w, idx, c, base', beyond);
    TakePipe(p, kept, left + beyond, r);
  }

  lemma CommandsStart(nodes: seq<Node>, c: Cell)
    requires Holds(nodes, c) && AreCommands(c) && nodes != [] && nodes[0] == SENTINEL
    ensures Head(c) < |nodes| && (nodes[Head(c)].data.Command? <==> c.Cell?)
    ensures c.Cell? ==> nodes[Head(c)].next == Head(c.rest) && (nodes[Head(c)].next != 0 <==> c.rest.Cell?)
  {
  }

  /** What is still to be run is in place after a command: it only touched its own records. */
  lemma RestInPlace(before: seq<Node>, after: seq<Node>, c: Cell)
    requires Holds(before, c) && c.Cell? && UsedOnce(c) && |before| == |after|
    requires forall i: nat :: i < |after| && Uses(c.second, i) == 0 ==> after[i] == before[i]
    ensures Holds(after, c.rest) && UsedOnce(c.rest)
    ensures before != [] && before[0] == SENTINEL ==> Uses(c.second, 0) == 0
    ensures after[c.index] == before[c.index]
  {
    FirstUsedOnce(c);
    NeverZero(before, c.second);
    OwnIndex(c);
    HoldsFrame(before, after, c.rest);
  }

  lemma OwnIndex(c: Cell)
    requires UsedOnce(c) && c.Cell?
    ensures Uses(c.second, c.index) == 0
  {
    assert Uses(c, c.index) <= 1;
  }

  lemma {:induction false} NeverZero(nodes: seq<Node>, c: Cell)
    requires Holds(nodes, c)
    ensures Uses(c, 0) == 0
  {
    if c.Cell? {
      NeverZero(nodes, c.first);
      NeverZero(nodes, c.second);
      NeverZero(nodes, c.rest);
    }
  }

  /** The records of the commands before hold what they held, and those of the last one what it left. */
  lemma CommandHeld(before: seq<Node>, after: seq<Node>, c: Cell, done: seq<nat>)
    requires c.Cell? && UsedOnce(c) && |before| == |after|
    requires forall i: nat :: i < |after| && Uses(c.second, i) == 0 ==> after[i] == before[i]
    requires forall i :: i in done ==> Uses(c, i) == 0
    ensures HeldBy(after, done + HereIds(c.second)) == HeldBy(before, done) + HeldBy(after, HereIds(c.second))
    ensures forall i :: i in done + HereIds(c.second) ==> Uses(c.rest, i) == 0
  {
    FirstUsedOnce(c);
    HereIdsUsed(c.second);
    HeldByBoth(after, done, HereIds(c.second));
    forall i | i in done ensures Uses(c.second, i) == 0 && Uses(c.rest, i) == 0 {
      assert Uses(c, i) == 0;
    }
    HeldByOthers(before, after, done);
  }

  lemma StepOfPipeline(c: Cell, w: World, before: Ran)
    requires AreCommands(c) && c.Cell?
    ensures AreRedirs(c.second) && AreCommands(c.rest)
    ensures var after := RunOne(c, w, before);
      RunCommands(c, w, before) == if after.exit || c.rest.Nil? then after else RunCommands(c.rest, w, after)
    ensures RunOne(c, w, before.(result := 0)) == RunOne(c, w, before)
  {
  }

  lemma PipedAlready(c: Cell, w: World, before: Ran)
    requires AreCommands(c) && c.Cell? && c.rest.Cell?
    ensures RunOne(c, w, before.(piped := true)) == RunOne(c, w, before)
  {
  }

  lemma NoCommands(w: World, before: Ran)
    ensures RunCommands(Nil, w, before) == before && PipeHereFds(Nil) == {} && PipeHereIds(Nil) == []
  {
  }

  lemma PipeSplits(fds: map<int, Desc>, c: Cell, left: set<int>)
    requires c.Cell? && PipeReady(fds, c) && PipeHereFds(c) !! left && UsedOnce(c)
    ensures HereReady(fds, c.second) && PipeReady(fds, c.rest)
    ensures HereFds(c.second) <= PipeHereFds(c) && PipeHereFds(c.rest) <= PipeHereFds(c)
    ensures PipeHereFds(c) + left == HereFds(c.second) + (PipeHereFds(c.rest) + left)
    ensures PipeHereIds(c) == HereIds(c.second) + PipeHereIds(c.rest)
    ensures HereFds(c.second) !! PipeHereFds(c.rest) + left
    ensures forall f :: f in PipeHereFds(c.rest) ==> f in fds
  {
    CommandsApart(fds, c);
  }

  /** What one command leaves of records and descriptors for the ones behind it. */
  lemma StepInPlace(before: seq<Node>, after: seq<Node>, fds: map<int, Desc>, fds': map<int, Desc>, c: Cell,
                    done: seq<nat>, left: set<int>, more: set<int>)
    requires Holds(before, c) && c.Cell? && UsedOnce(c) && |before| == |after| && before != [] && before[0] == SENTINEL
    requires forall i: nat :: i < |after| && Uses(c.second, i) == 0 ==> after[i] == before[i]
    requires PipeReady(fds, c.rest) && forall f ::
      f in PipeHereFds(c.rest) && f in fds ==> f in fds' && fds'[f] == fds[f]
    requires HeldBy(before, done) == left && HeldBy(after, HereIds(c.second)) == more
    requires forall i :: i in done ==> Uses(c, i) == 0
    ensures Holds(after, c.rest) && UsedOnce(c.rest) && PipeReady(fds', c.rest) && after[0] == SENTINEL
    ensures after[c.index] == before[c.index]
    ensures HeldBy(after, done + HereIds(c.second)) == left + more
    ensures forall i :: i in done + HereIds(c.second) ==> Uses(c.rest, i) == 0
    ensures PipeHereIds(c) == HereIds(c.second) + PipeHereIds(c.rest)
    ensures done + PipeHereIds(c) == (done + HereIds(c.second)) + PipeHereIds(c.rest)
    ensures more + (PipeHereFds(c.rest) + left) == PipeHereFds(c.rest) + (left + more)
  {
    hide Holds, Uses, UsedOnce, PipeReady, HereReady, HeldBy, HereIds, PipeHereFds;
    RestInPlace(before, after, c);
    PipeStaysReady(fds, fds', c.rest);
    CommandHeld(before, after, c, done);
  }

  /** Waits for the process of the last command, if there is one. */
  method WaitReturnStatus(p: Process) returns (status: int)
    modifies p`waiting
    ensures p.waiting == None && (old(p.waiting).Some? ==> status == old(p.waiting).value)
  {
    status := if p.waiting.Some? then p.waiting.value else 1;
    p.waiting := None;
  }

  /** One command of a pipeline, with a pipe behind it unless it is the last. */
  method RunOneCommand(p: Process, w: World, idx: nat, ghost c: Cell, ghost base: map<int, Desc>,
                       ghost beyond: set<int>)
    returns (result: int, ghost left: set<int>)
    requires p.nodes != [] && p.nodes[0] == SENTINEL && Holds(p.nodes, c) && AreCommands(c) && UsedOnce(c)
    requires c.Cell? && c.index == idx && p.pipe0 == p.pipe1 == -1 && HereReady(p.fds, c.second)
    requires Tidy(p, base, HereFds(c.second) + beyond) && HereFds(c.second) !! beyond
    modifies p
    ensures p.State(result) == RunOne(c, w, old(p.State(0)))
    ensures p.pipe0 == p.pipe1 == -1 && (c.rest.Cell? ==> p.io1 == -1)
    ensures Tidy(p, if c.rest.Cell? then Kept(base, old(p.fds), old(p.io1)) else base, left + beyond)
    ensures left == HeldBy(p.nodes, HereIds(c.second)) && left <= HereFds(c.second)
    ensures Untouched(old(p.nodes), p.nodes, c.second)
    ensures forall f :: f in beyond && f in old(p.fds) ==> f in p.fds && p.fds[f] == old(p.fds)[f]
  {
    hide TidyFds, Holds, HereReady, Uses, UsedOnce, HereFds, RunCommand, HeldBy, HereIds, Kept, AreRedirs;
    CommandsStart(p.nodes, c);
    if p.nodes[idx].next != 0 {
      PipedAlready(c, w, p.State(0));
      p.isPipe := true;
      result, left := PipeAndExecuteSimpleCommand(p, w, idx, c, base, beyond);
    } else {
      result, left := ExecuteSimpleCommand(p, w, idx, c, base, beyond);
    }
  }

  /**
   * Between two commands: those from `c` on are in place with their here-documents, and of those in
   * `done`, the here-documents of the commands before, the ones in `left` are still held.
   */
  ghost predicate Between(p: Process, c: Cell, base: map<int, Desc>, done: seq<nat>, left: set<int>)
    reads p
  {
    && p.nodes != [] && p.nodes[0] == SENTINEL && Holds(p.nodes, c) && AreCommands(c) && UsedOnce(c)
    && p.pipe0 == p.pipe1 == -1 && PipeReady(p.fds, c) && Tidy(p, base, PipeHereFds(c) + left)
    && PipeHereFds(c) !! left && HeldBy(p.nodes, done) == left && forall i :: i in done ==> Uses(c, i) == 0
  }

  /** One command of a pipeline. */
  method RunNext(p: Process, w: World, idx: nat, ghost c: Cell, ghost base: map<int, Desc>, ghost done: seq<nat>,
                 ghost left: set<int>)
    returns (result: int, ghost left': set<int>)
    requires c.Cell? && c.index == idx && Between(p, c, base, done, left)
    modifies p
    ensures p.State(result) == RunOne(c, w, old(p.State(0)))
    ensures c.rest.Cell? ==> p.io1 == -1
    ensures Between(p, c.rest, if c.rest.Cell? then Kept(base, old(p.fds), old(p.io1)) else base,
                    done + HereIds(c.second), left')
    ensures left' + PipeHereFds(c.rest) <= left + PipeHereFds(c)
    ensures idx < |p.nodes| && p.nodes[idx].next == Head(c.rest)
    ensures done + PipeHereIds(c) == (done + HereIds(c.second)) + PipeHereIds(c.rest)
    ensures Untouched(old(p.nodes), p.nodes, c.second)
  {
    hide TidyFds, Holds, PipeReady, HereReady, Uses, UsedOnce, HereFds, PipeHereFds, RunOne, HeldBy, HereIds,
      PipeHereIds, AreRedirs;
    PipeSplits(p.fds, c, left);
    CommandsStart(p.nodes, c);
    ghost var more;
    result, more := RunOneCommand(p, w, idx, c, base, PipeHereFds(c.rest) + left);
    StepInPlace(old(p.nodes), p.nodes, old(p.fds), p.fds, c, done, left, more);
    left' := left + more;
  }

  lemma BetweenStarts(p: Process, c: Cell, base: map<int, Desc>)
    requires p.nodes != [] && p.nodes[0] == SENTINEL && Holds(p.nodes, c) && AreCommands(c) && UsedOnce(c)
    requires p.pipe0 == p.pipe1 == -1 && PipeReady(p.fds, c) && Tidy(p, base, PipeHereFds(c))
    ensures Between(p, c, base, [], {}) && PipeHereIds(c) == [] + PipeHereIds(c)
  {
    assert PipeHereFds(c) + {} == PipeHereFds(c);
  }

  /** The next record is that of the next command, or the sentinel. */
  lemma NextCommand(p: Process, c: Cell, base: map<int, Desc>, done: seq<nat>, left: set<int>)
    requires Between(p, c, base, done, left)
    ensures Head(c) < |p.nodes| && (p.nodes[Head(c)].data.Command? <==> c.Cell?) && -1 !in p.fds && AreCommands(c)
  {
    CommandsStart(p.nodes, c);
    OthersStay(p.fds, p.next, p.io0, p.io1, base, PipeHereFds(c) + left);
  }

  /** Whatever is not run any more still holds its descriptors. */
  lemma BetweenEnds(p: Process, c: Cell, base: map<int, Desc>, done: seq<nat>, left: set<int>)
    requires Between(p, c, base, done, left)
    ensures p.pipe0 == p.pipe1 == -1 && Tidy(p, base, PipeHereFds(c) + left)
    ensures HeldBy(p.nodes, done + PipeHereIds(c)) == PipeHereFds(c) + left
  {
    PipeHeldInPlace(p.nodes, c);
    HeldByBoth(p.nodes, done, PipeHereIds(c));
  }

  /** The pipeline's commands and records, the descriptors it is to leave alone, and what it comes to. */
  datatype Plan = Plan(chain: Cell, nodes: seq<Node>, kept: map<int, Desc>, all: Ran)

  ghost predicate PartOf(c: Cell, chain: Cell) {
    forall i: nat :: Uses(c, i) > 0 ==> Uses(chain, i) > 0
  }

  /** The plan is carried out but for the commands from `c` on, which are not run if the shell is to exit. */
  ghost predicate Follows(p: Process, w: World, plan: Plan, c: Cell, stop: bool, result: int, base: map<int, Desc>,
                          done: seq<nat>, left: set<int>)
    reads p
  {
    && Between(p, c, base, done, left) && AreCommands(c)
    && plan.all == (if stop then p.State(result) else RunCommands(c, w, p.State(result)))
    && PipeHereIds(plan.chain) == done + PipeHereIds(c) && left + PipeHereFds(c) <= PipeHereFds(plan.chain)
    && Untouched(plan.nodes, p.nodes, plan.chain) && PartOf(c, plan.chain)
    && plan.kept == if c.Cell? && c.rest.Cell? then Kept(base, p.fds, p.io1) else base
  }

  lemma PartsUsed(before: seq<Node>, nodes: seq<Node>, nodes': seq<Node>, c: Cell, chain: Cell)
    requires c.Cell? && PartOf(c, chain) && Untouched(before, nodes, chain) && Untouched(nodes, nodes', c.second)
    ensures PartOf(c.rest, chain) && Untouched(before, nodes', chain)
  {
    forall i: nat | Uses(c.second, i) > 0 || Uses(c.rest, i) > 0 ensures Uses(chain, i) > 0 {
      assert Uses(c, i) > 0;
    }
  }

  /** One more command of the plan. */
  method FollowPlan(p: Process, w: World, idx: nat, ghost plan: Plan, ghost c: Cell, ghost before: int,
                    ghost base: map<int, Desc>, ghost done: seq<nat>, ghost left: set<int>)
    returns (result: int, ghost left': set<int>)
    requires c.Cell? && c.index == idx && Follows(p, w, plan, c, false, before, base, done, left)
    modifies p
    ensures Follows(p, w, plan, c.rest, p.shouldExit, result, plan.kept, done + HereIds(c.second), left')
    ensures idx < |p.nodes| && p.nodes[idx].next == Head(c.rest)
  {
    hide Between, Uses, HereFds, PipeHereFds, RunCommands, RunOne, HeldBy, HereIds, PipeHereIds, AreCommands, PartOf;
    StepOfPipeline(c, w, p.State(before));
    assert p.State(0) == p.State(before).(result := 0);
    result, left' := RunNext(p, w, idx, c, base, done, left);
    NextCommand(p, c.rest, plan.kept, done + HereIds(c.second), left');
    NoCommands(w, p.State(result));
    PartsUsed(plan.nodes, old(p.nodes), p.nodes, c, plan.chain);
  }

  /** The commands of a pipeline one after the other, until the shell is to exit. */
  method RunEach(p: Process, w: World, headIdx: nat, ghost chain: Cell, ghost base: map<int, Desc>)
    returns (result: int, ghost left: set<int>)
    requires p.nodes != [] && p.nodes[0] == SENTINEL && Holds(p.nodes, chain) && AreCommands(chain) && UsedOnce(chain)
    requires chain.Cell? && headIdx == chain.index
    requires p.pipe0 == p.pipe1 == -1 && PipeReady(p.fds, chain) && Tidy(p, base, PipeHereFds(chain))
    modifies p
    ensures p.State(result) == RunCommands(chain, w, old(p.State(0)))
    ensures p.pipe0 == p.pipe1 == -1 && Untouched(old(p.nodes), p.nodes, chain)
    ensures Tidy(p, if chain.rest.Cell? then Kept(base, old(p.fds), old(p.io1)) else base, left)
    ensures left == HeldBy(p.nodes, PipeHereIds(chain)) && left <= PipeHereFds(chain)
  {
    hide Follows, Between, TidyFds, HereFds, PipeHereFds, RunCommands, HeldBy, HereIds, PipeHereIds, AreCommands, Kept,
      Holds, UsedOnce, PipeReady, Untouched;
    ghost var rest, done := chain, [];
    left := {};
    result := 0;
    var idx := headIdx;
    ghost var kept := if chain.rest.Cell? then Kept(base, p.fds, p.io1) else base;
    ghost var plan := Plan(chain, p.nodes, kept, RunCommands(chain, w, p.State(0)));
    ghost var now, stop := base, false;
    BetweenStarts(p, chain, base);
    PlanStarts(p, w, plan, base);
    NextCommand(p, chain, base, [], {});
    while p.nodes[idx].data.Command?
      invariant !stop && Follows(p, w, plan, rest, false, result, now, done, left)
      invariant idx == Head(rest) < |p.nodes| && (p.nodes[idx].data.Command? <==> rest.Cell?)
      decreases rest
    {
      result, left := FollowPlan(p, w, idx, plan, rest, result, now, done, left);
      now, done := kept, done + HereIds(rest.second);
      idx, rest := p.nodes[idx].next, rest.rest;
      if p.shouldExit {
        stop := true;
        break;
      }
      PlanGoesOn(p, w, plan, rest, result, now, done, left);
    }
    left := PlanEnds(p, w, plan, rest, stop, result, now, done, left);
  }

  lemma PlanStarts(p: Process, w: World, plan: Plan, base: map<int, Desc>)
    requires Between(p, plan.chain, base, [], {}) && AreCommands(plan.chain) && plan.nodes == p.nodes
    requires plan.all == RunCommands(plan.chain, w, p.State(0))
    requires plan.kept == if plan.chain.Cell? && plan.chain.rest.Cell? then Kept(base, p.fds, p.io1) else base
    ensures Follows(p, w, plan, plan.chain, false, 0, base, [], {})
  {
    hide Between, RunCommands;
    assert [] + PipeHereIds(plan.chain) == PipeHereIds(plan.chain);
  }

  lemma PlanGoesOn(p: Process, w: World, plan: Plan, c: Cell, result: int, base: map<int, Desc>, done: seq<nat>,
                   left: set<int>)
    requires Follows(p, w, plan, c, false, result, base, done, left)
    ensures Head(c) < |p.nodes| && (p.nodes[Head(c)].data.Command? <==> c.Cell?)
  {
    hide Between, RunCommands;
    NextCommand(p, c, base, done, left);
  }

  lemma PlanEnds(p: Process, w: World, plan: Plan, c: Cell, stop: bool, result: int, base: map<int, Desc>,
                 done: seq<nat>, left: set<int>)
    returns (all: set<int>)
    requires Follows(p, w, plan, c, stop, result, base, done, left) && (!stop ==> c.Nil?)
    requires c.Cell? ==> base == plan.kept
    ensures p.State(result) == plan.all && p.pipe0 == p.pipe1 == -1 && Untouched(plan.nodes, p.nodes, plan.chain)
    ensures Tidy(p, plan.kept, all) && all == HeldBy(p.nodes, PipeHereIds(plan.chain)) && all <= PipeHereFds(plan.chain)
  {
    hide Between, TidyFds;
    BetweenEnds(p, c, base, done, left);
    all := PipeHereFds(c) + left;
  }

  /**
   * Runs a pipeline. However its commands go: every descriptor that is open at the end was open
   * before and is not the pipeline's, or is on one of the streams, or is still held by the record
   * of its here-document; the pipe slots are empty.
   */
  method ExecutePipeline(p: Process, w: World, headIdx: nat, ghost chain: Cell, ghost base: map<int, Desc>)
    returns (result: int, ghost left: set<int>)
    requires p.nodes != [] && p.nodes[0] == SENTINEL && Holds(p.nodes, chain) && AreCommands(chain) && UsedOnce(chain)
    requires chain.Cell? && headIdx == chain.index
    requires p.pipe0 == p.pipe1 == -1 && PipeReady(p.fds, chain) && Tidy(p, base, PipeHereFds(chain))
    modifies p
    ensures p.State(result) == RunPipeline(chain, w, old(p.State(0)))
    ensures p.pipe0 == p.pipe1 == -1 && Untouched(old(p.nodes), p.nodes, chain)
    ensures Tidy(p, if chain.rest.Cell? then Kept(base, old(p.fds), old(p.io1)) else base, left)
    ensures left == HeldBy(p.nodes, PipeHereIds(chain)) && left <= PipeHereFds(chain)
  {
    hide TidyFds, Kept, HeldBy, PipeHereIds, PipeHereFds, RunCommands;
    result, left := RunEach(p, w, headIdx, chain, base);
    if p.shouldExit {
      var _ := WaitReturnStatus(p);
      return;
    }
    p.isPipe := false;
    if p.waiting.Some? {
      var status := WaitReturnStatus(p);
      if result == 0 {
        result := status;
      }
    }
  }
}
