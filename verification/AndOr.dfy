// AND-OR lists: the flat walk over flagged pipelines, and the meaning of the conditional
// operators it has to agree with.

module AndOr {
  import opened Grammar
  import opened Derivations
  import opened NodeArena
  import opened Syntax

  /** How a pipeline hangs on what was run before it. */
  datatype Link = Always | OnSuccess | OnFailure

  /** What running one pipeline leaves: its exit status, and whether the shell is to exit. */
  datatype Status = Status(code: int, exit: bool)

  /** What running a list did: the pipelines it ran, in order, and the last status. */
  datatype Run = Run(trace: seq<nat>, status: Status)

  function LinkOf(p: Ast): Link
    requires p.APipeline?
  {
    if AndIf in p.flags then OnSuccess else if OrIf in p.flags then OnFailure else Always
  }

  /** The links of a list of pipelines. */
  function Links(m: seq<Ast>): (ls: seq<Link>)
    requires forall i :: 0 <= i < |m| ==> m[i].APipeline?
    ensures |ls| == |m| && forall i :: 0 <= i < |m| ==> ls[i] == LinkOf(m[i])
  {
    seq(|m|, i requires 0 <= i < |m| => LinkOf(m[i]))
  }

  predicate Satisfied(link: Link, code: int) {
    link.Always? || (link.OnSuccess? && code == 0) || (link.OnFailure? && code != 0)
  }

  function Opposite(link: Link): Link {
    if link.OnSuccess? then OnFailure else OnSuccess
  }

  // ---- The flat walk ---------------------------------------------------------------------

  /** The skip loop: the next pipeline with the given link, whatever lies in between. */
  function SkipTo(ls: seq<Link>, i: nat, link: Link): (j: nat)
    ensures i <= |ls| ==> i <= j <= |ls|
    decreases |ls| - i
  {
    if i >= |ls| || ls[i] == link then i else SkipTo(ls, i + 1, link)
  }

  /** The pipeline to run after pipeline `i` ended with `code`. */
  function NextToRun(ls: seq<Link>, i: nat, code: int): (j: nat)
    requires i < |ls|
    ensures i < j <= |ls|
  {
    if i + 1 == |ls| || Satisfied(ls[i + 1], code) then i + 1 else SkipTo(ls, i + 2, Opposite(ls[i + 1]))
  }

  /** What a pipeline leaves behind what was before: nothing takes the flag to exit back. */
  function After(before: Status, left: Status): Status {
    Status(left.code, before.exit || left.exit)
  }

  /** The walk from pipeline `i` on; pipeline `k` of the list is known as `ids[k]`. */
  function Walk(ls: seq<Link>, ids: seq<nat>, outcome: nat -> Status, i: nat, status: Status): Run
    requires i <= |ls| == |ids|
    decreases |ls| - i
  {
    if i == |ls| then Run([], status)
    else
      var s := After(status, outcome(ids[i]));
      if s.exit then Run([ids[i]], s)
      else
        var rest := Walk(ls, ids, outcome, NextToRun(ls, i, s.code), s);
        Run([ids[i]] + rest.trace, rest.status)
  }

  // ---- The meaning of the operators ------------------------------------------------------

  /** Runs one more pipeline if its link allows. */
  function AndThen(before: Run, link: Link, id: nat, outcome: nat -> Status): Run {
    if before.status.exit || !Satisfied(link, before.status.code) then before
    else Run(before.trace + [id], outcome(id))
  }

  /** The operators from `i` on, applied to a run one after the other from the left. */
  function Fold(ls: seq<Link>, ids: seq<nat>, outcome: nat -> Status, i: nat, run: Run): Run
    requires i <= |ls| == |ids|
    decreases |ls| - i
  {
    if i == |ls| then run else Fold(ls, ids, outcome, i + 1, AndThen(run, ls[i], ids[i], outcome))
  }

  /** An AND-OR derivation is a pipeline, or a shorter one, an operator and a pipeline. */
  lemma AndOrRule(t: Tree)
    requires IsDerivation(t) && Root(t) == SYM_AND_OR
    ensures t.Branch? && 6 <= t.rule <= 8 && |t.kids| == (if t.rule == 6 then 1 else 4)
    ensures forall i :: 0 <= i < |t.kids| ==> IsDerivation(t.kids[i])
    ensures t.rule == 6 ==> Root(t.kids[0]) == SYM_PIPELINE
    ensures t.rule != 6 ==> Root(t.kids[0]) == SYM_AND_OR && Root(t.kids[3]) == SYM_PIPELINE
  {
    hide Meaning;
    if t.rule == 6 {
      assert Root(t.kids[0]) == RhsAt(6, 0 + 0);
    } else {
      assert Root(t.kids[0]) == RhsAt(t.rule, 0 + 0);
      assert Root(t.kids[3]) == RhsAt(t.rule, 0 + 3);
    }
  }

  /** The list of an AND-OR derivation extends its left operand's by one flagged pipeline. */
  lemma AndOrMeaning(t: Tree)
    requires IsDerivation(t) && Root(t) == SYM_AND_OR
    ensures t.Branch? && 6 <= t.rule <= 8
    ensures t.rule == 6 ==> |Meaning(t)| == 1
    ensures t.rule != 6 ==>
              && |t.kids| == 4 && IsDerivation(t.kids[0]) && Root(t.kids[0]) == SYM_AND_OR
              && Meaning(t) != [] && Meaning(t)[..|Meaning(t)| - 1] == Meaning(t.kids[0])
              && Meaning(t)[|Meaning(t)| - 1].APipeline?
              && Meaning(t)[|Meaning(t)| - 1].flags == {if t.rule == 7 then AndIf else OrIf}
  {
    hide Meaning, HasShape, IsDerivation, RhsAt, RhsLen, Combine, ShapesFit;
    AndOrRule(t);
    MeaningOfBranch(t);
    var a, d := KidMeaning(t.rule, t.kids, 0), KidMeaning(t.rule, t.kids, 3);
    CombineAndOr(t.rule, a, KidMeaning(t.rule, t.kids, 1), KidMeaning(t.rule, t.kids, 2), d,
      LastToken(YieldAll(t.kids)));
  }

  lemma CombineAndOr(r: int, a: seq<Ast>, b: seq<Ast>, c: seq<Ast>, d: seq<Ast>, word: Token)
    requires 6 <= r <= 8 && ShapesFit(r, a, b, c, d)
    ensures r == 6 ==> |Combine(r, a, b, c, d, word)| == 1
    ensures r != 6 ==>
              && |d| == 1 && d[0].APipeline?
              && Combine(r, a, b, c, d, word) == a + [APipeline({if r == 7 then AndIf else OrIf}, d[0].commands)]
  {
  }

  /** The meaning of an AND-OR derivation, by its own grouping: the left operand decides. */
  function Evaluate(t: Tree, ids: seq<nat>, outcome: nat -> Status): Run
    requires IsDerivation(t) && Root(t) == SYM_AND_OR && |ids| == |Meaning(t)|
    decreases t
  {
    AndOrMeaning(t);
    if t.rule == 6 then Run([ids[0]], outcome(ids[0]))
    else
      var n := |ids| - 1;
      AndThen(Evaluate(t.kids[0], ids[..n], outcome), if t.rule == 7 then OnSuccess else OnFailure, ids[n], outcome)
  }

  // ---- The walk agrees with the meaning --------------------------------------------------

  /** Once a pipeline is conditional, so are all after it. */
  predicate StaysConditional(ls: seq<Link>) {
    forall i, j :: 0 <= i < j < |ls| && !ls[i].Always? ==> !ls[j].Always?
  }

  /** While its condition fails, a pipeline and all after it with the same link are passed over. */
  lemma {:induction false} SkippedFromLeft(ls: seq<Link>, ids: seq<nat>, outcome: nat -> Status, i: nat, link: Link,
                                           run: Run)
    requires 0 < i <= |ls| == |ids| && StaysConditional(ls) && ls[i - 1] == link && !link.Always?
    requires !run.status.exit && !Satisfied(link, run.status.code)
    ensures i <= SkipTo(ls, i, Opposite(link)) <= |ls|
    ensures Fold(ls, ids, outcome, i, run) == Fold(ls, ids, outcome, SkipTo(ls, i, Opposite(link)), run)
    decreases |ls| - i
  {
    if i < |ls| && ls[i] != Opposite(link) {
      assert ls[i] == link;
      SkippedFromLeft(ls, ids, outcome, i + 1, link, run);
    }
  }

  function Prepend(trace: seq<nat>, run: Run): Run {
    Run(trace + run.trace, run.status)
  }

  lemma {:induction false} FoldPrepends(ls: seq<Link>, ids: seq<nat>, outcome: nat -> Status, i: nat, trace: seq<nat>,
                                        run: Run)
    requires i <= |ls| == |ids|
    ensures Fold(ls, ids, outcome, i, Prepend(trace, run)) == Prepend(trace, Fold(ls, ids, outcome, i, run))
    decreases |ls| - i
  {
    if i < |ls| {
      var next := AndThen(run, ls[i], ids[i], outcome);
      assert AndThen(Prepend(trace, run), ls[i], ids[i], outcome) == Prepend(trace, next) by {
        assert trace + run.trace + [ids[i]] == trace + (run.trace + [ids[i]]);
      }
      FoldPrepends(ls, ids, outcome, i + 1, trace, next);
    }
  }

  lemma {:induction false} FoldAfterExit(ls: seq<Link>, ids: seq<nat>, outcome: nat -> Status, i: nat, run: Run)
    requires i <= |ls| == |ids| && run.status.exit
    ensures Fold(ls, ids, outcome, i, run) == run
    decreases |ls| - i
  {
    if i < |ls| { FoldAfterExit(ls, ids, outcome, i + 1, run); }
  }

  /** Walking on after pipeline `i` is applying the remaining operators to its run. */
  lemma {:induction false} WalkIsFold(ls: seq<Link>, ids: seq<nat>, outcome: nat -> Status, i: nat, status: Status)
    requires i < |ls| == |ids| && StaysConditional(ls) && !status.exit
    ensures Walk(ls, ids, outcome, i, status) == Fold(ls, ids, outcome, i + 1, Run([ids[i]], outcome(ids[i])))
    decreases |ls| - i
  {
    var s := outcome(ids[i]);
    var run := Run([ids[i]], s);
    if s.exit {
      FoldAfterExit(ls, ids, outcome, i + 1, run);
    } else {
      var j := NextToRun(ls, i, s.code);
      if i + 1 < |ls| && !Satisfied(ls[i + 1], s.code) {
        SkippedFromLeft(ls, ids, outcome, i + 2, ls[i + 1], run);
        SkipStopsAt(ls, i + 2, Opposite(ls[i + 1]));
      }
      assert Fold(ls, ids, outcome, i + 1, run) == Fold(ls, ids, outcome, j, run);
      if j < |ls| {
        WalkIsFold(ls, ids, outcome, j, s);
        var one := Run([ids[j]], outcome(ids[j]));
        assert AndThen(run, ls[j], ids[j], outcome) == Prepend([ids[i]], one);
        FoldPrepends(ls, ids, outcome, j + 1, [ids[i]], one);
      } else {
        assert Walk(ls, ids, outcome, j, s) == Run([], s);
      }
    }
  }

  lemma {:induction false} SkipStopsAt(ls: seq<Link>, i: nat, link: Link)
    requires i <= |ls|
    ensures SkipTo(ls, i, link) < |ls| ==> ls[SkipTo(ls, i, link)] == link
    decreases |ls| - i
  {
    if i < |ls| && ls[i] != link { SkipStopsAt(ls, i + 1, link); }
  }

  lemma {:induction false} FoldSnoc(ls: seq<Link>, ids: seq<nat>, outcome: nat -> Status, i: nat, run: Run, link: Link,
                                    id: nat)
    requires i <= |ls| == |ids|
    ensures Fold(ls + [link], ids + [id], outcome, i, run) == AndThen(Fold(ls, ids, outcome, i, run), link, id, outcome)
    decreases |ls| - i
  {
    if i < |ls| {
      FoldSnoc(ls, ids, outcome, i + 1, AndThen(run, ls[i], ids[i], outcome), link, id);
    } else {
      var last := AndThen(run, link, id, outcome);
      assert Fold(ls + [link], ids + [id], outcome, i + 1, last) == last;
    }
  }

  lemma {:induction false} EvaluateIsFold(t: Tree, ids: seq<nat>, outcome: nat -> Status)
    requires IsDerivation(t) && Root(t) == SYM_AND_OR && |ids| == |Meaning(t)|
    ensures Evaluate(t, ids, outcome) == Fold(Links(Meaning(t)), ids, outcome, 1, Run([ids[0]], outcome(ids[0])))
    decreases t
  {
    hide Meaning, IsDerivation;
    AndOrMeaning(t);
    var n := |ids| - 1;
    if t.rule != 6 {
      var left := t.kids[0];
      var link := if t.rule == 7 then OnSuccess else OnFailure;
      EvaluateIsFold(left, ids[..n], outcome);
      assert Links(Meaning(t)) == Links(Meaning(left)) + [link];
      assert ids == ids[..n] + [ids[n]];
      FoldSnoc(Links(Meaning(left)), ids[..n], outcome, 1, Run([ids[0]], outcome(ids[0])), link, ids[n]);
    }
  }

  lemma AndOrStaysConditional(m: seq<Ast>)
    requires IsAndOr(m)
    ensures StaysConditional(Links(m))
  {
  }

  /**
   * For every AND-OR derivation and every outcome of its pipelines, the flat walk runs the
   * same pipelines in the same order, with the same last status, as the derivation's meaning.
   */
  lemma WalkIsMeaning(t: Tree, ids: seq<nat>, outcome: nat -> Status, status: Status)
    requires IsDerivation(t) && Root(t) == SYM_AND_OR && |ids| == |Meaning(t)| && !status.exit
    ensures Walk(Links(Meaning(t)), ids, outcome, 0, status) == Evaluate(t, ids, outcome)
  {
    hide Meaning, IsDerivation;
    EvaluateIsFold(t, ids, outcome);
    AndOrStaysConditional(Meaning(t));
    WalkIsFold(Links(Meaning(t)), ids, outcome, 0, status);
  }

  // ---- What the operators decide ---------------------------------------------------------

  lemma {:induction false} WalkRunsListed(ls: seq<Link>, ids: seq<nat>, outcome: nat -> Status, i: nat, status: Status)
    requires i <= |ls| == |ids|
    ensures forall id :: id in Walk(ls, ids, outcome, i, status).trace ==> id in ids
    decreases |ls| - i
  {
    if i < |ls| {
      var s := After(status, outcome(ids[i]));
      if !s.exit { WalkRunsListed(ls, ids, outcome, NextToRun(ls, i, s.code), s); }
    }
  }

  /**
   * Behind `&&` the last pipeline is run if and only if what stands before it ends with status 0,
   * behind the other operator if and only if it ends with another one; not if the shell is to exit.
   */
  lemma OperatorDecides(t: Tree, ids: seq<nat>, outcome: nat -> Status, status: Status)
    requires IsDerivation(t) && Root(t) == SYM_AND_OR && |ids| == |Meaning(t)| && !status.exit
    requires t.Branch? && t.rule != 6
    ensures t.rule == 7 || t.rule == 8
    ensures t.kids != [] && IsDerivation(t.kids[0]) && Root(t.kids[0]) == SYM_AND_OR
    ensures ids != [] && |ids| - 1 == |Meaning(t.kids[0])|
    ensures var n := |ids| - 1;
      var left := Walk(Links(Meaning(t.kids[0])), ids[..n], outcome, 0, status);
      var whole := Walk(Links(Meaning(t)), ids, outcome, 0, status);
      var runs := !left.status.exit && (left.status.code == 0 <==> t.rule == 7);
      && whole == (if runs then Run(left.trace + [ids[n]], outcome(ids[n])) else left)
      && (ids[n] !in ids[..n] ==> (ids[n] in whole.trace <==> runs))
  {
    hide Meaning, IsDerivation, Walk;
    AndOrMeaning(t);
    var n := |ids| - 1;
    WalkIsMeaning(t, ids, outcome, status);
    WalkIsMeaning(t.kids[0], ids[..n], outcome, status);
    WalkRunsListed(Links(Meaning(t.kids[0])), ids[..n], outcome, 0, status);
  }

  /**
   * Where the walk goes on: at the next pipeline if it is unconditional, or behind status 0 and
   * hangs on success, or behind another one and hangs on failure; else at the next one with the
   * opposite link.
   */
  lemma NextIsDecided(ls: seq<Link>, i: nat, code: int)
    requires i + 1 < |ls|
    ensures var j := NextToRun(ls, i, code);
      match ls[i + 1]
      case Always => j == i + 1
      case OnSuccess => if code == 0 then j == i + 1 else IsNextWith(ls, i + 2, j, OnFailure)
      case OnFailure => if code != 0 then j == i + 1 else IsNextWith(ls, i + 2, j, OnSuccess)
  {
    if !Satisfied(ls[i + 1], code) { SkipsToNext(ls, i + 2, Opposite(ls[i + 1])); }
  }

  /** The first link from `i` on that is this one, or the end. */
  predicate IsNextWith(ls: seq<Link>, i: nat, j: nat, link: Link) {
    && i <= j <= |ls| && (forall k :: i <= k < j ==> ls[k] != link) && (j < |ls| ==> ls[j] == link)
  }

  lemma {:induction false} SkipsToNext(ls: seq<Link>, i: nat, link: Link)
    requires i <= |ls|
    ensures IsNextWith(ls, i, SkipTo(ls, i, link), link)
    decreases |ls| - i
  {
    if i < |ls| && ls[i] != link { SkipsToNext(ls, i + 1, link); }
  }

  // ---- When the shell is already to exit -------------------------------------------------

  /** The first pipeline of a list is started even then, and no other. */
  lemma WalkAfterExit(ls: seq<Link>, ids: seq<nat>, outcome: nat -> Status, status: Status)
    requires ls != [] && |ls| == |ids| && status.exit
    ensures Walk(ls, ids, outcome, 0, status) == Run([ids[0]], Status(outcome(ids[0]).code, true))
  {
  }

  /** A list runs as its meaning, whatever its pipelines leave, if and only if the shell was not already to exit. */
  lemma WalkIsMeaningIff(t: Tree, ids: seq<nat>, status: Status)
    requires IsDerivation(t) && Root(t) == SYM_AND_OR && |ids| == |Meaning(t)|
    ensures !status.exit <==>
            forall outcome: nat -> Status ::
              Walk(Links(Meaning(t)), ids, outcome, 0, status) == Evaluate(t, ids, outcome)
  {
    hide Meaning, IsDerivation, Evaluate, Walk;
    if status.exit {
      var outcome: nat -> Status := id => Status(0, false);
      AndOrMeaning(t);
      WalkAfterExit(Links(Meaning(t)), ids, outcome, status);
      WalkIsMeaning(t, ids, outcome, Status(0, false));
      NeverExits(Links(Meaning(t)), ids, 0, Status(0, false));
      assert Walk(Links(Meaning(t)), ids, outcome, 0, status) != Evaluate(t, ids, outcome);
    } else {
      forall outcome: nat -> Status
        ensures Walk(Links(Meaning(t)), ids, outcome, 0, status) == Evaluate(t, ids, outcome)
      {
        WalkIsMeaning(t, ids, outcome, status);
      }
    }
  }

  lemma {:induction false} NeverExits(ls: seq<Link>, ids: seq<nat>, i: nat, status: Status)
    requires i <= |ls| == |ids| && !status.exit
    ensures !Walk(ls, ids, id => Status(0, false), i, status).status.exit
    decreases |ls| - i
  {
    if i < |ls| { NeverExits(ls, ids, NextToRun(ls, i, 0), Status(0, false)); }
  }

  // ---- Lists in parentheses --------------------------------------------------------------

  /** Running a list from the left, where an unconditional pipeline always runs. */
  function InOrder(ls: seq<Link>, ids: seq<nat>, outcome: nat -> Status, code: int): Run
    requires |ls| == |ids|
  {
    Fold(ls, ids, outcome, 0, Run([], Status(code, false)))
  }

  /** An outcome under which the walk never comes to the first unconditional pipeline after a conditional one. */
  lemma {:induction false} WalkPasses(ls: seq<Link>, ids: seq<nat>, code: int, i: nat, j: nat, status: Status)
    requires i <= |ls| == |ids| && 0 < j < |ls| && ls[j].Always? && !ls[j - 1].Always?
    requires !Satisfied(ls[j - 1], code) && i != j - 1 && i != j && !status.exit
    requires forall k, l :: 0 <= k < l < |ids| ==> ids[k] != ids[l]
    ensures ids[j] !in Walk(ls, ids, id => Status(code, false), i, status).trace
    decreases |ls| - i
  {
    var outcome := id => Status(code, false);
    if i < |ls| {
      var n := NextToRun(ls, i, code);
      if i + 1 < |ls| && !Satisfied(ls[i + 1], code) {
        SkipStopsAt(ls, i + 2, Opposite(ls[i + 1]));
      }
      WalkPasses(ls, ids, code, n, j, outcome(ids[i]));
    }
  }

  lemma {:induction false} FoldRunsUnconditional(ls: seq<Link>, ids: seq<nat>, code: int, i: nat, j: nat, run: Run)
    requires i <= |ls| == |ids| && j < |ls| && ls[j].Always? && !run.status.exit
    requires i <= j || ids[j] in run.trace
    ensures ids[j] in Fold(ls, ids, id => Status(code, false), i, run).trace
    decreases |ls| - i
  {
    var outcome := id => Status(code, false);
    if i < |ls| {
      FoldRunsUnconditional(ls, ids, code, i + 1, j, AndThen(run, ls[i], ids[i], outcome));
    }
  }

  lemma {:induction false} FirstUnconditionalAfter(ls: seq<Link>, i: nat, j: nat) returns (k: nat)
    requires i < j < |ls| && !ls[i].Always? && ls[j].Always?
    ensures i < k < |ls| && ls[k].Always? && !ls[k - 1].Always?
    decreases j - i
  {
    if ls[i + 1].Always? {
      k := i + 1;
    } else {
      k := FirstUnconditionalAfter(ls, i + 1, j);
    }
  }

  /** A list with an unconditional pipeline after a conditional one is not always run in order. */
  lemma WalkIsNotInOrder(ls: seq<Link>, ids: seq<nat>, status: int) returns (code: int)
    requires ls != [] && |ls| == |ids| && ls[0].Always? && !StaysConditional(ls)
    requires forall k, l :: 0 <= k < l < |ids| ==> ids[k] != ids[l]
    ensures Walk(ls, ids, id => Status(code, false), 0, Status(status, false)) != InOrder(ls, ids,
      id => Status(code, false), status)
  {
    var i, j :| 0 <= i < j < |ls| && !ls[i].Always? && ls[j].Always?;
    var k := FirstUnconditionalAfter(ls, i, j);
    code := if ls[k - 1].OnSuccess? then 1 else 0;
    WalkPasses(ls, ids, code, 0, k, Status(status, false));
    FoldRunsUnconditional(ls, ids, code, 0, k, Run([], Status(status, false)));
  }

  /**
   * Links of a list are walked in order under every outcome if and only if none is unconditional
   * behind a conditional one.
   */
  lemma WalkIsInOrderIff(ls: seq<Link>, ids: seq<nat>, status: int)
    requires ls != [] && |ls| == |ids| && ls[0].Always?
    requires forall k, l :: 0 <= k < l < |ids| ==> ids[k] != ids[l]
    ensures StaysConditional(ls) <==>
            forall outcome: nat -> Status ::
              Walk(ls, ids, outcome, 0, Status(status, false)) == InOrder(ls, ids, outcome, status)
  {
    if StaysConditional(ls) {
      forall outcome: nat -> Status
        ensures Walk(ls, ids, outcome, 0, Status(status, false)) == InOrder(ls, ids, outcome, status)
      {
        WalkIsFold(ls, ids, outcome, 0, Status(status, false));
        assert AndThen(Run([], Status(status, false)), ls[0], ids[0], outcome) == Run([ids[0]], outcome(ids[0]));
      }
    } else {
      var code := WalkIsNotInOrder(ls, ids, status);
    }
  }

  /** A compound list is AND-OR lists one behind the other. */
  lemma CompoundListRule(t: Tree)
    requires IsDerivation(t) && (Root(t) == SYM_TERM || Root(t) == SYM_COMPOUND_LIST)
    ensures t.Branch? && 15 <= t.rule <= 18
    ensures var i := if t.rule <= 16 then 1 else 0;
      && i < |t.kids| && IsDerivation(t.kids[i])
      && (t.rule <= 17 ==> Root(t.kids[i]) == SYM_TERM) && (t.rule == 18 ==> Root(t.kids[i]) == SYM_AND_OR)
    ensures t.rule == 17 ==> 2 < |t.kids| && IsDerivation(t.kids[2]) && Root(t.kids[2]) == SYM_AND_OR
  {
    hide Meaning;
    var i := if t.rule <= 16 then 1 else 0;
    assert Root(t.kids[i]) == RhsAt(t.rule, 0 + i);
    if t.rule == 17 { assert Root(t.kids[2]) == RhsAt(17, 0 + 2); }
  }

  lemma CombineCompound(r: int, a: seq<Ast>, b: seq<Ast>, c: seq<Ast>, d: seq<Ast>, word: Token)
    requires 15 <= r <= 18 && ShapesFit(r, a, b, c, d)
    ensures Combine(r, a, b, c, d, word) == if r <= 16 then b else if r == 17 then a + c else a
  {
  }

  lemma CompoundListMeaning(t: Tree)
    requires IsDerivation(t) && (Root(t) == SYM_TERM || Root(t) == SYM_COMPOUND_LIST)
    ensures t.Branch? && 15 <= t.rule <= 18
    ensures var i := if t.rule <= 16 then 1 else 0;
      && i < |t.kids| && IsDerivation(t.kids[i])
      && (t.rule <= 17 ==> Root(t.kids[i]) == SYM_TERM) && (t.rule == 18 ==> Root(t.kids[i]) == SYM_AND_OR)
      && (t.rule != 17 ==> Meaning(t) == Meaning(t.kids[i]))
      && (t.rule == 17 ==>
            && 2 < |t.kids| && IsDerivation(t.kids[2]) && Root(t.kids[2]) == SYM_AND_OR
            && Meaning(t) == Meaning(t.kids[0]) + Meaning(t.kids[2]))
  {
    hide Meaning, HasShape, IsDerivation, RhsAt, RhsLen, Combine, ShapesFit;
    CompoundListRule(t);
    MeaningOfBranch(t);
    CombineCompound(t.rule, KidMeaning(t.rule, t.kids, 0), KidMeaning(t.rule, t.kids, 1), KidMeaning(t.rule, t.kids, 2),
                    KidMeaning(t.rule, t.kids, 3), LastToken(YieldAll(t.kids)));
  }

  /** A compound list is a list of pipelines, the first of them unconditional. */
  lemma {:induction false} CompoundListStarts(t: Tree)
    requires IsDerivation(t) && (Root(t) == SYM_TERM || Root(t) == SYM_COMPOUND_LIST)
    ensures Meaning(t) != [] && (forall i :: 0 <= i < |Meaning(t)| ==> Meaning(t)[i].APipeline?)
    ensures Meaning(t)[0].flags == {}
    decreases t
  {
    hide Meaning, IsDerivation;
    CompoundListMeaning(t);
    if t.rule < 18 { CompoundListStarts(t.kids[if t.rule == 17 then 0 else 1]); }
  }

  /** The links of a compound list. */
  ghost function ListLinks(t: Tree): seq<Link>
    requires IsDerivation(t) && (Root(t) == SYM_TERM || Root(t) == SYM_COMPOUND_LIST)
  {
    CompoundListStarts(t);
    Links(Meaning(t))
  }

  /**
   * The list between parentheses is run in order under every outcome of its pipelines if and only
   * if none of its AND-OR lists but the last has an operator: the skip loops pass over the lists
   * behind such a one. When it is started the shell must not be to exit.
   */
  lemma ListRunsInOrderIff(t: Tree, ids: seq<nat>, status: Status)
    requires IsDerivation(t) && Root(t) == SYM_COMPOUND_LIST && |ids| == |ListLinks(t)|
    requires forall k, l :: 0 <= k < l < |ids| ==> ids[k] != ids[l]
    ensures !status.exit && OnlyLastIsConditional(t) <==>
            forall outcome: nat -> Status ::
              Walk(ListLinks(t), ids, outcome, 0, status) == InOrder(ListLinks(t), ids, outcome, status.code)
  {
    hide Meaning, IsDerivation, Walk, InOrder, OnlyLastIsConditional;
    CompoundListStarts(t);
    ConditionalLists(t);
    if status.exit {
      var outcome: nat -> Status := id => Status(0, false);
      WalkAfterExit(ListLinks(t), ids, outcome, status);
      InOrderNeverExits(ListLinks(t), ids, status.code);
      assert Walk(ListLinks(t), ids, outcome, 0, status) != InOrder(ListLinks(t), ids, outcome, status.code);
    } else {
      WalkIsInOrderIff(ListLinks(t), ids, status.code);
    }
  }

  lemma InOrderNeverExits(ls: seq<Link>, ids: seq<nat>, code: int)
    requires |ls| == |ids|
    ensures !InOrder(ls, ids, id => Status(0, false), code).status.exit
  {
    FoldNeverExits(ls, ids, 0, Run([], Status(code, false)));
  }

  lemma {:induction false} FoldNeverExits(ls: seq<Link>, ids: seq<nat>, i: nat, run: Run)
    requires i <= |ls| == |ids| && !run.status.exit
    ensures !Fold(ls, ids, id => Status(0, false), i, run).status.exit
    decreases |ls| - i
  {
    if i < |ls| { FoldNeverExits(ls, ids, i + 1, AndThen(run, ls[i], ids[i], id => Status(0, false))); }
  }

  /** Only the last AND-OR list of the compound list has an operator. */
  ghost predicate OnlyLastIsConditional(t: Tree)
    requires IsDerivation(t) && (Root(t) == SYM_TERM || Root(t) == SYM_COMPOUND_LIST)
    decreases t
  {
    CompoundListMeaning(t);
    if t.rule == 18 then true
    else if t.rule == 17 then NoneIsConditional(t.kids[0])
    else OnlyLastIsConditional(t.kids[1])
  }

  /** No AND-OR list of the list has an operator: each is a single pipeline. */
  ghost predicate NoneIsConditional(t: Tree)
    requires IsDerivation(t) && Root(t) == SYM_TERM
    decreases t
  {
    CompoundListMeaning(t);
    if t.rule == 18 then t.kids[0].Branch? && t.kids[0].rule == 6
    else NoneIsConditional(t.kids[0]) && t.kids[2].Branch? && t.kids[2].rule == 6
  }

  predicate NoneLinked(ls: seq<Link>) {
    forall i :: 0 <= i < |ls| ==> ls[i].Always?
  }

  /** An AND-OR list is unconditional throughout exactly if it has no operator. */
  lemma AndOrLinks(t: Tree)
    requires IsDerivation(t) && Root(t) == SYM_AND_OR
    ensures t.Branch? && IsAndOr(Meaning(t))
    ensures var ls := Links(Meaning(t));
      ls != [] && ls[0].Always? && (t.rule == 6 <==> NoneLinked(ls)) && forall i :: 0 < i < |ls| ==> !ls[i].Always?
  {
    hide Meaning, IsDerivation;
    AndOrMeaning(t);
    if t.rule != 6 {
      assert IsAndOr(Meaning(t.kids[0]));
      assert !Links(Meaning(t))[1].Always?;
    }
  }

  lemma LinksConcat(a: seq<Ast>, b: seq<Ast>)
    requires forall i :: 0 <= i < |a| ==> a[i].APipeline?
    requires forall i :: 0 <= i < |b| ==> b[i].APipeline?
    ensures forall i :: 0 <= i < |a + b| ==> (a + b)[i].APipeline?
    ensures Links(a + b) == Links(a) + Links(b)
  {
  }

  lemma {:induction false} UnconditionalLists(t: Tree)
    requires IsDerivation(t) && Root(t) == SYM_TERM
    ensures NoneIsConditional(t) <==> NoneLinked(ListLinks(t))
    decreases t
  {
    hide Meaning, IsDerivation;
    CompoundListMeaning(t);
    CompoundListStarts(t);
    if t.rule == 18 {
      AndOrLinks(t.kids[0]);
    } else {
      CompoundListStarts(t.kids[0]);
      UnconditionalLists(t.kids[0]);
      AndOrLinks(t.kids[2]);
      LinksConcat(Meaning(t.kids[0]), Meaning(t.kids[2]));
      NoneLinkedConcat(Links(Meaning(t.kids[0])), Links(Meaning(t.kids[2])));
    }
  }

  lemma NoneLinkedConcat(a: seq<Link>, b: seq<Link>)
    ensures NoneLinked(a + b) <==> NoneLinked(a) && NoneLinked(b)
  {
    if NoneLinked(a + b) {
      assert forall i :: 0 <= i < |a| ==> a[i] == (a + b)[i];
      assert forall i :: 0 <= i < |b| ==> b[i] == (a + b)[|a| + i];
    }
  }

  /** A list behind another one starts unconditionally, so the other one must not end conditionally. */
  lemma ConcatStaysConditional(a: seq<Link>, b: seq<Link>)
    requires b != [] && b[0].Always? && forall i :: 0 < i < |b| ==> !b[i].Always?
    ensures StaysConditional(a + b) <==> NoneLinked(a)
  {
    if StaysConditional(a + b) {
      forall i | 0 <= i < |a| ensures a[i].Always? {
        assert (a + b)[i] == a[i] && (a + b)[|a|] == b[0];
      }
    }
  }

  lemma {:induction false} ConditionalLists(t: Tree)
    requires IsDerivation(t) && (Root(t) == SYM_TERM || Root(t) == SYM_COMPOUND_LIST)
    ensures OnlyLastIsConditional(t) <==> StaysConditional(ListLinks(t))
    decreases t
  {
    hide Meaning, IsDerivation;
    CompoundListMeaning(t);
    CompoundListStarts(t);
    if t.rule == 18 {
      AndOrLinks(t.kids[0]);
      AndOrStaysConditional(Meaning(t.kids[0]));
    } else if t.rule == 17 {
      CompoundListStarts(t.kids[0]);
      UnconditionalLists(t.kids[0]);
      AndOrLinks(t.kids[2]);
      LinksConcat(Meaning(t.kids[0]), Meaning(t.kids[2]));
      ConcatStaysConditional(Links(Meaning(t.kids[0])), Links(Meaning(t.kids[2])));
    } else {
      ConditionalLists(t.kids[1]);
    }
  }
}
