// Running a list with the pipelines wired: each pipeline finds the streams, the descriptors and the
// records as the ones before it left them, and what the list does is a walk over its links.

module ListWiring {
  import opened NodeArena
  import opened Context
  import opened AndOr
  import opened ExecuteList
  import opened Pipelines
  import opened PipelineWiring

  // ---- What running a list is to do ------------------------------------------------------

  /** Every record is a pipeline of one command or more. */
  predicate Runnable(c: Cell) {
    c.Cell? ==> c.data.Pipeline? && c.first.Cell? && AreCommands(c.first) && Runnable(c.rest)
  }

  lemma {:induction false} RunnableAre(c: Cell)
    requires Runnable(c)
    ensures ArePipelines(c)
  {
    if c.Cell? { RunnableAre(c.rest); }
  }

  lemma {:induction false} DropRuns(c: Cell, n: nat)
    requires Runnable(c) && n <= |Indices(c)|
    ensures Runnable(Drop(c, n)) && (Drop(c, n).Cell? <==> n < |Indices(c)|)
    ensures Drop(c, n).Cell? ==> Drop(c, n).index == Indices(c)[n]
  {
    if n > 0 { DropRuns(c.rest, n - 1); }
  }

  /** The pipeline of the list's record `i`. */
  ghost function PipelineAt(c: Cell, i: nat): (d: Cell)
    requires Runnable(c) && i < |Indices(c)|
    ensures d.Cell? && AreCommands(d)
  {
    DropRuns(c, i);
    Drop(c, i).first
  }

  /** The pipelines from record `i` on: each as the shell is behind the one before. */
  ghost function RunPipelines(c: Cell, w: World, i: nat, s: Ran): Ran
    requires Runnable(c) && ArePipelines(c) && i <= |Indices(c)|
    decreases |Indices(c)| - i
  {
    if i == |Indices(c)| then s
    else
      var r := RunPipeline(PipelineAt(c, i), w, s);
      if r.exit then r else RunPipelines(c, w, NextToRun(ChainLinks(c), i, r.result), r)
  }

  /** The records of the pipelines that are run. */
  ghost function TraceOf(c: Cell, w: World, i: nat, s: Ran): seq<nat>
    requires Runnable(c) && ArePipelines(c) && i <= |Indices(c)|
    decreases |Indices(c)| - i
  {
    if i == |Indices(c)| then []
    else
      var r := RunPipeline(PipelineAt(c, i), w, s);
      [Indices(c)[i]] + if r.exit then [] else TraceOf(c, w, NextToRun(ChainLinks(c), i, r.result), r)
  }

  // ---- A walk ----------------------------------------------------------------------------

  predicate Distinct(ids: seq<nat>) {
    forall i, j :: 0 <= i < j < |ids| ==> ids[i] != ids[j]
  }

  /** The walk does not ask for pipelines that lie behind it. */
  lemma {:induction false} WalkLooksAhead(ls: seq<Link>, ids: seq<nat>, a: nat -> Status, b: nat -> Status, i: nat,
                                          status: Status)
    requires i <= |ls| == |ids| && forall k :: i <= k < |ids| ==> a(ids[k]) == b(ids[k])
    ensures Walk(ls, ids, a, i, status) == Walk(ls, ids, b, i, status)
    decreases |ls| - i
  {
    if i < |ls| {
      var s := After(status, a(ids[i]));
      if !s.exit { WalkLooksAhead(ls, ids, a, b, NextToRun(ls, i, s.code), s); }
    }
  }

  lemma ExitStays(c: Cell, w: World, s: Ran)
    requires AreCommands(c) && c.Cell?
    ensures s.exit ==> RunPipeline(c, w, s).exit
  {
    CommandLaunches(c, w, Piping(c, s));
  }

  /**
   * Whatever the pipelines of a list do to the shell and to each other, the list runs the pipelines
   * of a walk over its links, for some outcome of each, and leaves the walk's status.
   */
  lemma {:induction false} RunIsAWalk(c: Cell, w: World, i: nat, s: Ran) returns (outcome: nat -> Status)
    requires Runnable(c) && ArePipelines(c) && i <= |Indices(c)| && Distinct(Indices(c))
    ensures var r := RunPipelines(c, w, i, s);
      Walk(ChainLinks(c), Indices(c), outcome, i, Status(s.result, s.exit))
      == Run(TraceOf(c, w, i, s), Status(r.result, r.exit))
    decreases |Indices(c)| - i
  {
    hide RunPipeline, Runnable, ArePipelines, ChainLinks, Distinct;
    var ls, ids := ChainLinks(c), Indices(c);
    if i == |ids| {
      return (id: nat) => Status(0, false);
    }
    var r := RunPipeline(PipelineAt(c, i), w, s);
    var status := Status(r.result, r.exit);
    ExitStays(PipelineAt(c, i), w, s);
    if r.exit {
      return (id: nat) => status;
    }
    var next := NextToRun(ls, i, r.result);
    var rest := RunIsAWalk(c, w, next, r);
    outcome := (id: nat) => if id == ids[i] then status else rest(id);
    Behind(ids, i, next);
    WalkLooksAhead(ls, ids, outcome, rest, next, status);
    assert After(Status(s.result, s.exit), outcome(ids[i])) == status;
  }

  lemma Behind(ids: seq<nat>, i: nat, next: nat)
    requires Distinct(ids) && i < next <= |ids|
    ensures forall k :: next <= k < |ids| ==> ids[k] != ids[i]
  {
  }

  // ---- Between two pipelines -------------------------------------------------------------

  function ListHereFds(c: Cell): set<int> {
    if c.Nil? then {} else PipeHereFds(c.first) + ListHereFds(c.rest)
  }

  /** The records of the here-documents that the list's own commands are redirected from. */
  function ListHereIds(c: Cell): seq<nat> {
    if c.Nil? then [] else PipeHereIds(c.first) + ListHereIds(c.rest)
  }

  predicate ListReady(fds: map<int, Desc>, c: Cell) {
    c.Cell? ==> PipeReady(fds, c.first) && ListReady(fds, c.rest)
  }

  /**
   * The pipelines from `c` on are in place with their here-documents, and of those in `done`, the
   * here-documents of the pipelines before, the ones in `left` are still held.
   */
  ghost predicate BetweenPipelines(p: Process, c: Cell, base: map<int, Desc>, done: seq<nat>, left: set<int>)
    reads p
  {
    && p.nodes != [] && p.nodes[0] == SENTINEL && Holds(p.nodes, c) && Runnable(c) && AllOneFlag(c) && UsedOnce(c)
    && p.pipe0 == p.pipe1 == -1 && ListReady(p.fds, c) && Tidy(p, base, ListHereFds(c) + left)
    && ListHereFds(c) !! left && HeldBy(p.nodes, done) == left && forall i :: i in done ==> Uses(c, i) == 0
  }

  lemma {:induction false} ListFdIsOther(fds: map<int, Desc>, c: Cell, fd: int)
    requires ListReady(fds, c) && fd in ListHereFds(c)
    ensures fd in fds && fds[fd].HereBody? && Uses(c, fds[fd].index) > 0
  {
    if fd in PipeHereFds(c.first) {
      PipeFdIsOther(fds, c.first, fd);
    } else {
      ListFdIsOther(fds, c.rest, fd);
    }
  }

  lemma {:induction false} ListStaysReady(fds: map<int, Desc>, fds': map<int, Desc>, c: Cell)
    requires ListReady(fds, c) && forall f :: f in ListHereFds(c) && f in fds ==> f in fds' && fds'[f] == fds[f]
    ensures ListReady(fds', c)
  {
    if c.Cell? {
      PipeStaysReady(fds, fds', c.first);
      ListStaysReady(fds, fds', c.rest);
    }
  }

  lemma {:induction false} PipeIdsUsed(c: Cell)
    ensures forall i :: i in PipeHereIds(c) ==> Uses(c, i) > 0
  {
    if c.Cell? {
      HereIdsUsed(c.second);
      PipeIdsUsed(c.rest);
    }
  }

  /** The first pipeline's records and descriptors are not those of the pipelines behind it. */
  lemma FirstIsApart(fds: map<int, Desc>, c: Cell)
    requires c.Cell? && UsedOnce(c) && ListReady(fds, c)
    ensures UsedOnce(c.first) && UsedOnce(c.rest) && Uses(c.first, c.index) == 0
    ensures forall i: nat :: Uses(c.first, i) > 0 ==> Uses(c.rest, i) == 0
    ensures PipeHereFds(c.first) !! ListHereFds(c.rest)
    ensures forall f :: f in ListHereFds(c) ==> f in fds
  {
    forall i: nat ensures Uses(c.first, i) <= 1 && Uses(c.rest, i) <= 1
      && (Uses(c.first, i) > 0 ==> Uses(c.rest, i) == 0 && i != c.index) {
      assert Uses(c, i) <= 1;
    }
    forall f | f in ListHereFds(c) ensures f in fds && !(f in PipeHereFds(c.first) && f in ListHereFds(c.rest)) {
      ListFdIsOther(fds, c, f);
      if f in PipeHereFds(c.first) { PipeFdIsOther(fds, c.first, f); }
      if f in ListHereFds(c.rest) { ListFdIsOther(fds, c.rest, f); }
    }
  }

  // ---- Descriptors -----------------------------------------------------------------------

  /** The descriptors of `base` and of `others`. */
  function With(base: map<int, Desc>, fds: map<int, Desc>, others: set<int>): map<int, Desc> {
    map f | f in fds && (f in base || f in others) :: fds[f]
  }

  lemma InWith(base: map<int, Desc>, fds: map<int, Desc>, others: set<int>, f: int)
    requires forall f :: f in base || f in others ==> f in fds
    requires forall f :: f in base ==> fds[f] == base[f]
    ensures f in With(base, fds, others) <==> f in base || f in others
    ensures f in With(base, fds, others) ==> With(base, fds, others)[f] == fds[f]
  {
  }

  /** What belongs to other pipelines is, for one of them, what was open before. */
  lemma SetAside(fds: map<int, Desc>, next: nat, io0: int, io1: int, base: map<int, Desc>, mine: set<int>,
                 others: set<int>)
    requires TidyFds(fds, next, io0, io1, base, mine + others) && mine !! others
    ensures TidyFds(fds, next, io0, io1, With(base, fds, others), mine)
  {
    var aside := With(base, fds, others);
    hide With;
    forall f ensures f in aside <==> f in base || f in others
      ensures f in aside ==> aside[f] == fds[f] {
      InWith(base, fds, others, f);
    }
  }

  /** And behind it theirs again; what it has overwritten stays open. */
  lemma TakeBack(fds: map<int, Desc>, next: nat, io0: int, io1: int, base: map<int, Desc>, left: set<int>,
                 others: set<int>)
    requires TidyFds(fds, next, io0, io1, base, left) && forall f :: f in others ==> f in base
    ensures TidyFds(fds, next, io0, io1, base - others, left + others) && left !! others
    ensures forall f :: f in others ==> f in fds && fds[f] == base[f]
  {
    assert forall f :: f in others ==> f in base && f !in left;
    assert forall f :: f in base - others ==> f in base && (base - others)[f] == base[f] && f !in left + others;
  }

  /** What a pipeline keeps of what was set aside for it. */
  lemma KeptAside(fds: map<int, Desc>, next: nat, io0: int, io1: int, base: map<int, Desc>, mine: set<int>,
                  others: set<int>)
    requires TidyFds(fds, next, io0, io1, base, mine + others)
    ensures Kept(With(base, fds, others), fds, io1) - others == Kept(base, fds, io1)
    ensures With(base, fds, others) - others == base
    ensures forall f :: f in others ==> f in With(base, fds, others) && With(base, fds, others)[f] == fds[f]
    ensures var kept := Kept(With(base, fds, others), fds, io1);
      forall f :: f in others ==> f in kept && kept[f] == fds[f]
  {
    var aside := With(base, fds, others);
    hide With;
    forall f ensures f in aside <==> f in base || f in others
      ensures f in aside ==> aside[f] == fds[f] {
      InWith(base, fds, others, f);
    }
    assert forall f :: f in aside - others <==> f in base;
    assert forall f :: f in base ==> (aside - others)[f] == base[f];
    assert aside - others == base;
    assert Kept(aside, fds, io1) - others == Kept(base, fds, io1);
  }

  /** What stays open for good behind the pipeline: an output left from before that a pipe took the place of. */
  function Lasting(base: map<int, Desc>, fds: map<int, Desc>, io1: int, c: Cell): map<int, Desc>
    requires c.Cell?
  {
    if c.rest.Cell? then Kept(base, fds, io1) else base
  }

  /** One pipeline of the list. */
  method RunPipelineOf(p: Process, w: World, idx: nat, ghost c: Cell, ghost base: map<int, Desc>, ghost done: seq<nat>,
                       ghost left: set<int>)
    returns (status: int, ghost left': set<int>)
    requires c.Cell? && c.index == idx && BetweenPipelines(p, c, base, done, left)
    modifies p
    ensures p.State(status) == RunPipeline(c.first, w, old(p.State(0)))
    ensures BetweenPipelines(p, c.rest, Lasting(base, old(p.fds), old(p.io1), c.first), done + PipeHereIds(c.first),
                             left')
    ensures idx < |p.nodes| && p.nodes[idx].next == Head(c.rest)
  {
    hide Holds, TidyFds, Uses, UsedOnce, PipeReady, PipeHereFds, PipeHereIds, HeldBy, AreCommands, RunPipeline, With,
      Kept, ListHereIds;
    HeldRecord(p.nodes, c);
    FirstIsApart(p.fds, c);
    ghost var others := ListHereFds(c.rest) + left;
    ghost var aside := With(base, p.fds, others);
    assert ListHereFds(c) + left == PipeHereFds(c.first) + others;
    SetAside(p.fds, p.next, p.io0, p.io1, base, PipeHereFds(c.first), others);
    KeptAside(p.fds, p.next, p.io0, p.io1, base, PipeHereFds(c.first), others);
    ghost var more;
    status, more := PipelineWiring.ExecutePipeline(p, w, p.nodes[idx].data.commandHead, c.first, aside);
    TakeBack(p.fds, p.next, p.io0, p.io1, Lasting(aside, old(p.fds), old(p.io1), c.first), more, others);
    left' := left + more;
    assert more + others == ListHereFds(c.rest) + left';
    RestStays(old(p.nodes), p.nodes, old(p.fds), p.fds, c, done, others);
    HeldByBoth(p.nodes, done, PipeHereIds(c.first));
  }

  lemma RestStays(before: seq<Node>, after: seq<Node>, fds: map<int, Desc>, fds': map<int, Desc>, c: Cell,
                  done: seq<nat>, others: set<int>)
    requires Holds(before, c) && c.Cell? && UsedOnce(c) && ListReady(fds, c) && Untouched(before, after, c.first)
    requires before != [] && before[0] == SENTINEL && forall i :: i in done ==> Uses(c, i) == 0
    requires forall f :: f in ListHereFds(c.rest) && f in fds ==> f in fds' && fds'[f] == fds[f]
    ensures Holds(after, c.rest) && ListReady(fds', c.rest) && after != [] && after[0] == SENTINEL
    ensures HeldBy(after, done) == HeldBy(before, done) && after[c.index] == before[c.index]
    ensures forall i :: i in done + PipeHereIds(c.first) ==> Uses(c.rest, i) == 0
  {
    FirstIsApart(fds, c);
    NeverZero(before, c.first);
    HoldsFrame(before, after, c.rest);
    ListStaysReady(fds, fds', c.rest);
    PipeIdsUsed(c.first);
    forall i | i in done ensures Uses(c.first, i) == 0 && Uses(c.rest, i) == 0 {
      assert Uses(c, i) == 0;
    }
    HeldByOthers(before, after, done);
  }

  // ---- The whole list --------------------------------------------------------------------

  /** The output a pipeline finds, if it is overwritten by that of a pipe. */
  function LostBy(c: Cell, streams: Streams): seq<Desc>
    requires c.Cell?
  {
    if c.rest.Cell? && streams.stdout.Some? then [streams.stdout.value] else []
  }

  /** The outputs left from before that pipes took the place of; nothing closes them any more. */
  ghost function LostOutputs(c: Cell, w: World, i: nat, s: Ran): seq<Desc>
    requires Runnable(c) && ArePipelines(c) && i <= |Indices(c)|
    decreases |Indices(c)| - i
  {
    if i == |Indices(c)| then []
    else
      var d := PipelineAt(c, i);
      var r := RunPipeline(d, w, s);
      LostBy(d, s.streams) + if r.exit then [] else LostOutputs(c, w, NextToRun(ChainLinks(c), i, r.result), r)
  }

  function Descs(lost: seq<(int, Desc)>): (ds: seq<Desc>)
    ensures |ds| == |lost| && forall k :: 0 <= k < |ds| ==> ds[k] == lost[k].1
  {
    seq(|lost|, k requires 0 <= k < |lost| => lost[k].1)
  }

  /** What was open before, and what was lost. */
  function Grown(base: map<int, Desc>, lost: seq<(int, Desc)>): map<int, Desc> {
    if lost == [] then base
    else
      var last := lost[|lost| - 1];
      Grown(base, lost[..|lost| - 1])[last.0 := last.1]
  }

  /** The list, what it comes to, what it loses, and what was open before. */
  datatype ListPlan = ListPlan(chain: Cell, whole: Ran, lost: seq<Desc>, base: map<int, Desc>)

  /** The plan is carried out but for the pipelines from record `i` on, which are not run if the shell is to exit. */
  ghost predicate FollowsList(p: Process, w: World, plan: ListPlan, i: nat, stop: bool, status: int,
                              lost: seq<(int, Desc)>, done: seq<nat>, left: set<int>)
    reads p
    requires Runnable(plan.chain) && ArePipelines(plan.chain) && i <= |Indices(plan.chain)|
  {
    && BetweenPipelines(p, Drop(plan.chain, i), Grown(plan.base, lost), done, left)
    && plan.whole == (if stop then p.State(status) else RunPipelines(plan.chain, w, i, p.State(status)))
    && plan.lost == Descs(lost) + (if stop then [] else LostOutputs(plan.chain, w, i, p.State(status)))
    && ListHereIds(plan.chain) == done + ListHereIds(Drop(plan.chain, i))
  }

  lemma ResultIsNew(c: Cell, w: World, s: Ran)
    requires AreCommands(c) && c.Cell?
    ensures RunPipeline(c, w, s.(result := 0)) == RunPipeline(c, w, s)
  {
    StepOfPipeline(c, w, s);
    StepOfPipeline(c, w, s.(result := 0));
  }

  lemma GrownMore(base: map<int, Desc>, lost: seq<(int, Desc)>, x: (int, Desc))
    ensures Grown(base, lost + [x]) == Grown(base, lost)[x.0 := x.1] && Descs(lost + [x]) == Descs(lost) + [x.1]
  {
    assert (lost + [x])[..|lost|] == lost;
  }

  /** Skipped pipelines stay as they are. */
  lemma {:induction false} SkipPipelines(p: Process, c: Cell, n: nat, base: map<int, Desc>, done: seq<nat>,
                                         left: set<int>)
    returns (done': seq<nat>, left': set<int>)
    requires BetweenPipelines(p, c, base, done, left) && n <= |Indices(c)|
    ensures BetweenPipelines(p, Drop(c, n), base, done', left')
    ensures done + ListHereIds(c) == done' + ListHereIds(Drop(c, n))
  {
    if n == 0 || c.Nil? {
      return done, left;
    }
    hide BetweenPipelines, ListHereIds, PipeHereIds, PipeHereFds;
    var ids := PipeHereIds(c.first);
    OneSkipped(p, c, base, done, left);
    IdsOfFirst(c, done);
    done', left' := SkipPipelines(p, c.rest, n - 1, base, done + ids, left + PipeHereFds(c.first));
  }

  lemma OneSkipped(p: Process, c: Cell, base: map<int, Desc>, done: seq<nat>, left: set<int>)
    requires BetweenPipelines(p, c, base, done, left) && c.Cell?
    ensures BetweenPipelines(p, c.rest, base, done + PipeHereIds(c.first), left + PipeHereFds(c.first))
  {
    hide TidyFds;
    var mine := PipeHereFds(c.first);
    FirstIsApart(p.fds, c);
    PipeIdsUsed(c.first);
    PipeHeldInPlace(p.nodes, c.first);
    HeldByBoth(p.nodes, done, PipeHereIds(c.first));
    assert ListHereFds(c) + left == ListHereFds(c.rest) + (left + mine);
    forall i | i in done + PipeHereIds(c.first) ensures Uses(c.rest, i) == 0 {
      if i in done { assert Uses(c, i) == 0; }
    }
  }

  /** What the next pipeline comes to. */
  lemma StepOfList(c: Cell, w: World, i: nat, s: Ran)
    requires Runnable(c) && ArePipelines(c) && i < |Indices(c)|
    ensures var r := RunPipeline(PipelineAt(c, i), w, s); var next := NextToRun(ChainLinks(c), i, r.result);
      && RunPipelines(c, w, i, s) == (if r.exit then r else RunPipelines(c, w, next, r))
      && LostOutputs(c, w, i, s)
         == LostBy(PipelineAt(c, i), s.streams) + (if r.exit then [] else LostOutputs(c, w, next, r))
  {
  }

  lemma {:induction false} DropLinks(c: Cell, n: nat)
    requires ArePipelines(c) && n <= |Indices(c)|
    ensures ArePipelines(Drop(c, n))
    ensures ChainLinks(Drop(c, n)) == ChainLinks(c)[n..] && Indices(Drop(c, n)) == Indices(c)[n..]
  {
    if n > 0 { DropLinks(c.rest, n - 1); }
  }

  /** Where the search for the next pipeline ends, seen from the whole list. */
  lemma NextOfList(c: Cell, i: nat, code: int)
    requires ArePipelines(c) && i < |Indices(c)|
    ensures ArePipelines(Drop(c, i)) && Drop(c, i).Cell?
    ensures var n := NextToRun(ChainLinks(Drop(c, i)), 0, code);
      && 0 < n && i + n == NextToRun(ChainLinks(c), i, code) && Drop(Drop(c, i).rest, n - 1) == Drop(c, i + n)
      && n - 1 <= |Indices(Drop(c, i).rest)|
  {
    hide NextToRun;
    DropLinks(c, i);
    NextShift(ChainLinks(c), i, code);
    var n := NextToRun(ChainLinks(Drop(c, i)), 0, code);
    DropDrop(c, i, n);
  }

  /** What the pipeline loses is what is on the output while its first pipe is made. */
  lemma LoseOutput(base: map<int, Desc>, lost: seq<(int, Desc)>, p: Process, c: Cell) returns (lost': seq<(int, Desc)>)
    requires c.Cell?
    ensures Grown(base, lost') == Lasting(Grown(base, lost), p.fds, p.io1, c)
    ensures Descs(lost') == Descs(lost) + LostBy(c, p.Found())
  {
    if c.rest.Cell? && p.io1 in p.fds {
      GrownMore(base, lost, (p.io1, p.fds[p.io1]));
      return lost + [(p.io1, p.fds[p.io1])];
    }
    return lost;
  }

  lemma BetweenIsList(p: Process, c: Cell, base: map<int, Desc>, done: seq<nat>, left: set<int>)
    requires BetweenPipelines(p, c, base, done, left)
    ensures IsList(p.nodes, c) && AllOneFlag(c) && Head(c) < |p.nodes| && (p.nodes[Head(c)].data.Pipeline? <==> c.Cell?)
  {
    RunnableAre(c);
  }

  lemma Assoc(a: seq<Desc>, b: seq<Desc>, c: seq<Desc>)
    ensures a + (b + c) == (a + b) + c
  {
  }

  lemma IdsOfFirst(c: Cell, done: seq<nat>)
    requires c.Cell?
    ensures done + ListHereIds(c) == (done + PipeHereIds(c.first)) + ListHereIds(c.rest)
  {
  }

  /** The list's next pipeline, and the search for the one behind it. */
  method FollowList(p: Process, w: World, idx: nat, ghost plan: ListPlan, ghost i: nat, ghost before: int,
                    ghost lost: seq<(int, Desc)>, ghost done: seq<nat>, ghost left: set<int>)
    returns (status: int, next: nat, ghost i': nat, ghost lost': seq<(int, Desc)>, ghost done': seq<nat>,
             ghost left': set<int>)
    requires Runnable(plan.chain) && ArePipelines(plan.chain) && i < |Indices(plan.chain)|
    requires FollowsList(p, w, plan, i, false, before, lost, done, left) && idx == Indices(plan.chain)[i]
    modifies p
    ensures i < i' <= |Indices(plan.chain)|
    ensures FollowsList(p, w, plan, i', p.shouldExit, status, lost', done', left')
    ensures !p.shouldExit ==> next == Head(Drop(plan.chain, i'))
  {
    hide BetweenPipelines, RunPipeline, RunPipelines, LostOutputs, ListHereIds, Runnable, ArePipelines, ChainLinks,
      NextToRun, Kept, Grown, Indices, Process.Found, PipeHereIds, AllOneFlag, IsList, Lasting;
    ghost var chain, c := plan.chain, Drop(plan.chain, i);
    ghost var s := p.State(before);
    DropRuns(chain, i);
    ResultIsNew(c.first, w, s);
    assert p.State(0) == s.(result := 0);
    lost' := LoseOutput(plan.base, lost, p, c.first);
    status, left' := RunPipelineOf(p, w, idx, c, Grown(plan.base, lost), done, left);
    done' := done + PipeHereIds(c.first);
    IdsOfFirst(c, done);
    StepOfList(chain, w, i, s);
    Assoc(Descs(lost), LostBy(c.first, s.streams), if p.shouldExit then []
      else LostOutputs(chain, w, NextToRun(ChainLinks(chain), i, status), p.State(status)));
    BetweenIsList(p, c.rest, Grown(plan.base, lost'), done', left');
    NextOfList(chain, i, status);
    next, i' := 0, i + 1;
    if p.shouldExit {
      DropNext(chain, i);
      return;
    }
    ghost var n;
    next, n := GetNext(p.nodes, idx, status, c);
    done', left' := SkipPipelines(p, c.rest, n - 1, Grown(plan.base, lost'), done', left');
    i' := i + n;
  }

  /**
   * Runs the list. However its pipelines go, the shell is in the end as behind the pipelines of
   * `RunPipelines`, and a descriptor that is open was open before, or is on a stream, or is held by
   * the record of its here-document, or is one of the lost outputs.
   */
  method RunList(p: Process, w: World, headIdx: nat, returnStatus: int, ghost chain: Cell,
                 ghost base: map<int, Desc>)
    returns (status: int, ghost lost: seq<(int, Desc)>, ghost left: set<int>)
    requires headIdx == Head(chain) && BetweenPipelines(p, chain, base, [], {})
    modifies p
    ensures ArePipelines(chain) && p.State(status) == RunPipelines(chain, w, 0, old(p.State(returnStatus)))
    ensures Descs(lost) == LostOutputs(chain, w, 0, old(p.State(returnStatus)))
    ensures Tidy(p, Grown(base, lost), left) && p.pipe0 == p.pipe1 == -1
    ensures left == HeldBy(p.nodes, ListHereIds(chain))
  {
    hide BetweenPipelines, FollowsList, RunPipelines, LostOutputs, ListHereIds, TidyFds, Grown, Runnable, HeldBy,
      ChainLinks;
    status := returnStatus;
    ghost var i, done := 0, [];
    lost, left := [], {};
    BetweenIsRunnable(p, chain, base, [], {});
    ghost var s := p.State(status);
    ghost var plan := ListPlan(chain, RunPipelines(chain, w, 0, s), LostOutputs(chain, w, 0, s), base);
    ListStarts(p, w, plan, status);
    ghost var stop := false;
    var idx := headIdx;
    while p.nodes[idx].data.Pipeline?
      invariant i <= |Indices(chain)| && !stop && FollowsList(p, w, plan, i, false, status, lost, done, left)
      invariant idx == Head(Drop(chain, i)) < |p.nodes|
      invariant p.nodes[idx].data.Pipeline? <==> i < |Indices(chain)|
      invariant i < |Indices(chain)| ==> idx == Indices(chain)[i]
      decreases |Indices(chain)| - i
    {
      status, idx, i, lost, done, left := FollowList(p, w, idx, plan, i, status, lost, done, left);
      if p.shouldExit {
        stop := true;
        break;
      }
      ListGoesOn(p, w, plan, i, status, lost, done, left);
    }
    left := ListEnds(p, w, plan, i, stop, status, lost, done, left);
  }

  lemma BetweenIsRunnable(p: Process, c: Cell, base: map<int, Desc>, done: seq<nat>, left: set<int>)
    requires BetweenPipelines(p, c, base, done, left)
    ensures Runnable(c) && ArePipelines(c)
  {
    RunnableAre(c);
  }

  lemma ListStarts(p: Process, w: World, plan: ListPlan, status: int)
    requires BetweenPipelines(p, plan.chain, plan.base, [], {}) && Runnable(plan.chain) && ArePipelines(plan.chain)
    requires plan.whole == RunPipelines(plan.chain, w, 0, p.State(status))
    requires plan.lost == LostOutputs(plan.chain, w, 0, p.State(status))
    ensures FollowsList(p, w, plan, 0, false, status, [], [], {})
    ensures Drop(plan.chain, 0) == plan.chain
    ensures var idx := Head(plan.chain);
      && idx < |p.nodes|
      && (p.nodes[idx].data.Pipeline? <==> 0 < |Indices(plan.chain)|)
      && (0 < |Indices(plan.chain)| ==> idx == Indices(plan.chain)[0])
  {
    hide BetweenPipelines, RunPipelines, LostOutputs;
    DropNone(plan.chain);
    BetweenIsList(p, plan.chain, plan.base, [], {});
    assert [] + ListHereIds(plan.chain) == ListHereIds(plan.chain);
  }

  lemma ListGoesOn(p: Process, w: World, plan: ListPlan, i: nat, status: int, lost: seq<(int, Desc)>, done: seq<nat>,
                   left: set<int>)
    requires Runnable(plan.chain) && ArePipelines(plan.chain) && i <= |Indices(plan.chain)|
    requires FollowsList(p, w, plan, i, false, status, lost, done, left)
    ensures var idx := Head(Drop(plan.chain, i));
      && idx < |p.nodes| && (p.nodes[idx].data.Pipeline? <==> i < |Indices(plan.chain)|)
      && (i < |Indices(plan.chain)| ==> idx == Indices(plan.chain)[i])
  {
    hide BetweenPipelines, RunPipelines, LostOutputs;
    DropRuns(plan.chain, i);
    BetweenIsList(p, Drop(plan.chain, i), Grown(plan.base, lost), done, left);
  }

  lemma {:induction false} ListHeldInPlace(nodes: seq<Node>, c: Cell)
    requires Holds(nodes, c)
    ensures HeldBy(nodes, ListHereIds(c)) == ListHereFds(c)
  {
    if c.Cell? {
      PipeHeldInPlace(nodes, c.first);
      ListHeldInPlace(nodes, c.rest);
      HeldByBoth(nodes, PipeHereIds(c.first), ListHereIds(c.rest));
    }
  }

  lemma ListEnds(p: Process, w: World, plan: ListPlan, i: nat, stop: bool, status: int, lost: seq<(int, Desc)>,
                 done: seq<nat>, left: set<int>)
    returns (all: set<int>)
    requires Runnable(plan.chain) && ArePipelines(plan.chain) && i <= |Indices(plan.chain)|
    requires FollowsList(p, w, plan, i, stop, status, lost, done, left) && (!stop ==> i == |Indices(plan.chain)|)
    ensures p.State(status) == plan.whole && Descs(lost) == plan.lost && p.pipe0 == p.pipe1 == -1
    ensures Tidy(p, Grown(plan.base, lost), all) && all == HeldBy(p.nodes, ListHereIds(plan.chain))
  {
    hide TidyFds, Grown;
    var rest := Drop(plan.chain, i);
    all := ListHereFds(rest) + left;
    ListHeldInPlace(p.nodes, rest);
    HeldByBoth(p.nodes, done, ListHereIds(rest));
    assert Descs(lost) + [] == Descs(lost);
  }
}
