/**
 Progress of the work pool: a worker leaves a search soon after the ticket has moved, a pool with work to
 do is never stuck, and a lucky run drains the queue within a bound known beforehand.
 */
module WorkPoolProgress {
  import opened Options
  import opened WorkPool
  import opened WorkPoolSafety

  // ---------- leaving a search ----------

  /** The hash attempts worker w makes in a run before it leaves the search it is in. */
  function AttemptsInSearch(c: Config, s: Pool, run: seq<Action>, w: nat): nat
    requires ValidRun(c, s, run) && w < |s.workers|
    decreases |run|
  {
    if run == [] || !s.workers[w].phase.Searching? then 0
    else (if run[0].Attempt? && run[0].w == w then 1 else 0) + AttemptsInSearch(c, Step(c, s, run[0]), run[1..], w)
  }

  /** Once the ticket has moved, the rest of the current batch is all that is left. */
  lemma {:induction false} StaleSearchEnds(c: Config, s: Pool, run: seq<Action>, w: nat)
    requires Inv(c, s) && ValidRun(c, s, run) && w < |s.workers| && s.workers[w].phase.Searching?
    requires s.workers[w].phase.saved != s.shared.ticket
    ensures AttemptsInSearch(c, s, run, w) <= s.workers[w].phase.iteration <= BATCH
    decreases |run|
  {
    assert WorkerInv(c, s.shared, s.workers[w]);
    if run != [] {
      var s1 := Step(c, s, run[0]);
      StepKeepsInv(c, s, run[0]);
      if s1.workers[w].phase.Searching? {
        StaleSearchEnds(c, s1, run[1..], w);
      }
    }
  }

  // ---------- no deadlock ----------

  /** A step of worker w other than waking up for nothing. */
  predicate StepOf(a: Action, w: nat)
  {
    (a.Lock? || a.Dispatch? || a.Poll? || a.Attempt? || a.Relock? || a.Deliver?) && a.w == w
  }

  ghost predicate WorkerCanStep(c: Config, s: Pool, w: nat)
  {
    exists a :: StepOf(a, w) && Enabled(c, s, a)
  }

  lemma AwakeWorkerCanStep(c: Config, s: Pool, w: nat)
    requires w < |s.workers|
    requires var p := s.workers[w].phase; !p.Sleeping? && !p.Exited? && !p.Faulted?
    ensures WorkerCanStep(c, s, w)
  {
    var p := s.workers[w].phase;
    var a := match p
      case Entering => Lock(w)
      case Chosen(_, _) => Dispatch(w, None)
      case Searching(item, _, output, iteration) =>
        if iteration == 0 || output >= item.difficulty then Poll(w) else Attempt(w, 0)
      case Leaving(_, _, _) => Relock(w)
      case _ => Deliver(w);
    assert StepOf(a, w) && Enabled(c, s, a);
  }

  /** With work queued, no stop and no notify_all outstanding, every worker that has not failed can step. */
  lemma NoDeadlock(c: Config, s: Pool, w: nat)
    requires Reachable(c, s) && w < |s.workers| && !s.workers[w].phase.Faulted?
    requires s.shared.pending != [] && !s.shared.done && s.owed == 0
    ensures WorkerCanStep(c, s, w)
  {
    ReachableInv(c, s);
    assert WorkerInv(c, s.shared, s.workers[w]);
    AwakeWorkerCanStep(c, s, w);
  }

  // ---------- draining the queue ----------

  const MAX_RANK: nat := 16

  /** Steps a worker is away from sleeping or claiming; a stale ticket costs one round trip more. */
  function Rank(ticket: nat, p: Phase): (r: nat)
    ensures r <= MAX_RANK
  {
    match p
    case Entering => 7
    case Delivering(_) => 8
    case Chosen(_, saved) => if saved == ticket then 6 else 16
    case Searching(item, saved, output, iteration) =>
      (if saved == ticket then 0 else 10)
      + if output >= item.difficulty then 3 else if iteration > 0 then 4 else 5
    case Leaving(_, saved, _) => if saved == ticket then 2 else 12
    case _ => 0
  }

  function RankSum(ticket: nat, ws: seq<Worker>): (r: nat)
    ensures r <= MAX_RANK * |ws|
  {
    if ws == [] then 0 else Rank(ticket, ws[0].phase) + RankSum(ticket, ws[1..])
  }

  lemma {:induction false} RankUpdate(ticket: nat, ws: seq<Worker>, w: nat, x: Worker)
    requires w < |ws|
    ensures RankSum(ticket, ws[w := x]) + Rank(ticket, ws[w].phase) == RankSum(ticket, ws) + Rank(ticket, x.phase)
  {
    if w == 0 {
      assert ws[w := x][1..] == ws[1..];
    } else {
      RankUpdate(ticket, ws[1..], w - 1, x);
      assert ws[w := x][1..] == ws[1..][w - 1 := x];
    }
  }

  /** Steps a pool can still take without new requests. */
  function Budget(s: Pool): nat
  {
    (|s.shared.pending| + s.owed) * (MAX_RANK * |s.workers| + 1) + RankSum(s.shared.ticket, s.workers)
  }

  /** Steps of the workers and notifications already owed, in which every hash attempt succeeds. */
  predicate Lucky(c: Config, s: Pool, a: Action)
  {
    && Enabled(c, s, a)
    && !a.Cancel? && !a.Stop? && !a.Generate?
    && (!a.Notify? ==> LuckyWorker(c, s.workers[a.w].phase, a))
  }

  predicate LuckyWorker(c: Config, p: Phase, a: Action)
  {
    WorkerEnabled(c, p, a) && (a.Attempt? ==> c.value(p.item.root, a.x) >= p.item.difficulty)
  }

  lemma RankDrops(c: Config, s: Shared, x: Worker, a: Action)
    requires WorkerInv(c, s, x) && LuckyWorker(c, x.phase, a)
    requires !(a.Relock? && s.ticket == x.phase.saved)
    ensures Rank(s.ticket, WorkerStep(c, s, x, a).phase) < Rank(s.ticket, x.phase) + if a.Wake? then 8 else 0
    ensures var s' := SharedStep(s, x, a); s'.ticket == s.ticket && s'.pending == s.pending
  {
  }

  lemma OneLess(n: nat, n': nat, k: nat)
    requires n == n' + 1
    ensures n * k == n' * k + k
  {
  }

  /** Every lucky step other than a spurious wakeup uses up budget. */
  lemma LuckyStepCosts(c: Config, s: Pool, a: Action)
    requires Inv(c, s) && Lucky(c, s, a)
    ensures Budget(Step(c, s, a)) < Budget(s) + if a.Wake? then 8 else 0
  {
    var s' := Step(c, s, a);
    if a.Notify? {
      OneLess(|s.shared.pending| + s.owed, |s'.shared.pending| + s'.owed, MAX_RANK * |s.workers| + 1);
    } else {
      WorkerStepCosts(c, s, a);
    }
  }

  lemma WorkerStepCosts(c: Config, s: Pool, a: Action)
    requires Inv(c, s) && Lucky(c, s, a) && !a.Notify?
    ensures Budget(Step(c, s, a)) < Budget(s) + if a.Wake? then 8 else 0
  {
    var x := s.workers[a.w];
    assert WorkerInv(c, s.shared, x);
    if a.Relock? && s.shared.ticket == x.phase.saved {
      ClaimCosts(s, Step(c, s, a));
    } else {
      RankDrops(c, s.shared, x, a);
      RankUpdate(s.shared.ticket, s.workers, a.w, WorkerStep(c, s.shared, x, a));
    }
  }

  /** One item fewer in the queue pays for whatever the workers then still have to do. */
  lemma ClaimCosts(s: Pool, s': Pool)
    requires |s.shared.pending| == |s'.shared.pending| + 1 && s'.owed == s.owed && |s'.workers| == |s.workers|
    ensures Budget(s') < Budget(s)
  {
    OneLess(|s.shared.pending| + s.owed, |s'.shared.pending| + s'.owed, MAX_RANK * |s.workers| + 1);
  }

  predicate LuckyRun(c: Config, s: Pool, run: seq<Action>)
    decreases |run|
  {
    run == [] || (Lucky(c, s, run[0]) && LuckyRun(c, Step(c, s, run[0]), run[1..]))
  }

  function Wakes(run: seq<Action>): nat
  {
    if run == [] then 0 else (if run[0].Wake? then 1 else 0) + Wakes(run[1..])
  }

  /** A lucky run is no longer than the budget of its first state, spurious wakeups apart. */
  lemma {:induction false} LuckyRunIsBounded(c: Config, s: Pool, run: seq<Action>)
    requires Inv(c, s) && LuckyRun(c, s, run)
    ensures ValidRun(c, s, run) && |run| <= Budget(s) + 8 * Wakes(run)
    decreases |run|
  {
    if run != [] {
      LuckyStepCosts(c, s, run[0]);
      StepKeepsInv(c, s, run[0]);
      LuckyRunIsBounded(c, Step(c, s, run[0]), run[1..]);
    }
  }

  /** No worker can step any more, except by waking up for nothing. */
  ghost predicate Quiet(c: Config, s: Pool)
  {
    s.owed == 0 && forall w :: 0 <= w < |s.workers| ==> !WorkerCanStep(c, s, w)
  }

  /** Where a run comes to rest with a healthy worker and no stop, nothing is queued and nothing is held back. */
  lemma QuietMeansDrained(c: Config, s: Pool, w: nat)
    requires Reachable(c, s) && Quiet(c, s) && !s.shared.done
    requires w < |s.workers| && !s.workers[w].phase.Faulted?
    ensures s.shared.pending == []
    ensures forall v :: 0 <= v < |s.workers| ==> s.workers[v].phase.Sleeping? || s.workers[v].phase.Faulted?
  {
    ReachableInv(c, s);
    if s.shared.pending != [] { NoDeadlock(c, s, w); }
    forall v | 0 <= v < |s.workers|
      ensures s.workers[v].phase.Sleeping? || s.workers[v].phase.Faulted?
    {
      assert WorkerInv(c, s.shared, s.workers[v]);
      if !s.workers[v].phase.Sleeping? && !s.workers[v].phase.Faulted? { AwakeWorkerCanStep(c, s, v); }
    }
  }
}
