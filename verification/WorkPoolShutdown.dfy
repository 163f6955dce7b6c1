/**
 Stopping the work pool (work.cpp, stop and the destructor that joins the threads): exactly which requests
 are still answered, and a bound on what the workers still do before every one of them has ended.
 */
module WorkPoolShutdown {
  import opened Options
  import opened WorkPool
  import opened WorkPoolSafety
  import opened WorkPoolProgress

  // ---------- what is answered ----------

  /** After a stop nothing is claimed any more, and what is queued stays queued. */
  lemma {:induction false} StopFreezesQueue(c: Config, s: Pool, run: seq<Action>)
    requires Inv(c, s) && s.shared.done && ValidRun(c, s, run)
    ensures var s' := After(c, s, run);
            && s'.shared.done && s'.shared.claims == s.shared.claims
            && |s.shared.pending| <= |s'.shared.pending|
            && s'.shared.pending[..|s.shared.pending|] == s.shared.pending
    decreases |run|
  {
    if run != [] {
      var a, s1 := run[0], Step(c, s, run[0]);
      StepKeepsInv(c, s, a);
      if a.Relock? { assert WorkerInv(c, s.shared, s.workers[a.w]); }
      assert s1.shared.done && s1.shared.claims == s.shared.claims;
      assert |s.shared.pending| <= |s1.shared.pending| && s1.shared.pending[..|s.shared.pending|] == s.shared.pending;
      StopFreezesQueue(c, s1, run[1..]);
    }
  }

  lemma {:induction false} RunConcat(c: Config, s: Pool, first: seq<Action>, second: seq<Action>)
    requires ValidRun(c, s, first) && ValidRun(c, After(c, s, first), second)
    ensures ValidRun(c, s, first + second)
    ensures After(c, s, first + second) == After(c, After(c, s, first), second)
    decreases |first|
  {
    if first == [] {
      assert first + second == second;
    } else {
      assert (first + second)[1..] == first[1..] + second;
      RunConcat(c, Step(c, s, first[0]), first[1..], second);
    }
  }

  lemma ReachableAfter(c: Config, s: Pool, run: seq<Action>)
    requires Reachable(c, s) && ValidRun(c, s, run)
    ensures Reachable(c, After(c, s, run))
  {
    var works: seq<nat>, first: seq<Action> :| ValidRun(c, Init(works), first) && After(c, Init(works), first) == s;
    RunConcat(c, Init(works), first, run);
  }

  /** So a request still queued at the stop is never answered. */
  lemma QueuedAtStopNeverAnswered(c: Config, s: Pool, run: seq<Action>, k: nat)
    requires Reachable(c, s) && s.shared.done && ValidRun(c, s, run)
    requires k < |s.shared.pending|
    ensures s.shared.pending[k].id !in AnswerIds(After(c, s, run).shared.answers)
  {
    var s' := After(c, s, run);
    var id := s.shared.pending[k].id;
    ReachableInv(c, s);
    StopFreezesQueue(c, s, run);
    ReachableAfter(c, s, run);
    EveryRequestExactlyOnce(c, s', id);
    assert s'.shared.pending[k] == s.shared.pending[k];
    assert Ids(s'.shared.pending)[k] == id;
    assert id in multiset(Ids(s'.shared.pending));
    assert multiset(AnswerIds(s'.shared.answers))[id] == 0;
  }

  /** Every request dropped unanswered had no callback. */
  ghost predicate DroppedInv(s: Shared)
  {
    forall k :: 0 <= k < |s.dropped| ==> s.dropped[k] < |s.requests| && !s.requests[s.dropped[k]].hasCallback
  }

  /** An item of the queue that a cancel of root drops. */
  predicate Silenced(pending: seq<Item>, root: nat, x: Item)
  {
    x in pending && x.root == root && !x.hasCallback
  }

  lemma {:induction false} SilentSpec(pending: seq<Item>, root: nat)
    ensures forall id :: id in Silent(pending, root) ==> exists x :: Silenced(pending, root, x) && x.id == id
  {
    if pending != [] {
      var init, last := pending[..|pending| - 1], pending[|pending| - 1];
      SilentSpec(init, root);
      assert pending == init + [last];
      forall id | id in Silent(pending, root)
        ensures exists x :: Silenced(pending, root, x) && x.id == id
      {
        if id in Silent(init, root) {
          var x :| Silenced(init, root, x) && x.id == id;
          assert Silenced(pending, root, x);
        } else {
          assert Silenced(pending, root, last);
        }
      }
    }
  }

  lemma CancelKeepsDropped(s: Shared, root: nat)
    requires QueueInv(s) && DroppedInv(s)
    ensures DroppedInv(Cancelled(s, root))
  {
    if !s.done {
      var s' := Cancelled(s, root);
      SilentSpec(s.pending, root);
      forall k | 0 <= k < |s'.dropped|
        ensures s'.dropped[k] < |s'.requests| && !s'.requests[s'.dropped[k]].hasCallback
      {
        if k >= |s.dropped| {
          var id := s'.dropped[k];
          assert id == Silent(s.pending, root)[k - |s.dropped|];
          assert id in Silent(s.pending, root);
          var x :| Silenced(s.pending, root, x) && x.id == id;
          assert x in s.pending;
          var i :| 0 <= i < |s.pending| && s.pending[i] == x;
          assert Known(s, s.pending[i]);
        }
      }
    }
  }

  lemma StepKeepsDropped(c: Config, s: Pool, a: Action)
    requires Inv(c, s) && DroppedInv(s.shared) && Enabled(c, s, a)
    ensures DroppedInv(Step(c, s, a).shared)
  {
    if a.Cancel? {
      CancelKeepsDropped(s.shared, a.root);
    }
  }

  lemma {:induction false} RunKeepsDropped(c: Config, s: Pool, run: seq<Action>)
    requires Inv(c, s) && DroppedInv(s.shared) && ValidRun(c, s, run)
    ensures DroppedInv(After(c, s, run).shared)
    decreases |run|
  {
    if run != [] {
      StepKeepsInv(c, s, run[0]);
      StepKeepsDropped(c, s, run[0]);
      RunKeepsDropped(c, Step(c, s, run[0]), run[1..]);
    }
  }

  lemma ReachableDropped(c: Config, s: Pool)
    requires Reachable(c, s)
    ensures DroppedInv(s.shared)
  {
    var works: seq<nat>, run: seq<Action> :| ValidRun(c, Init(works), run) && After(c, Init(works), run) == s;
    InitInv(c, works);
    RunKeepsDropped(c, Init(works), run);
  }

  /** Old requests stay as they were, and only new ones join the queue behind what a stop left there. */
  ghost predicate Appended(s: Shared, s': Shared)
  {
    && |s.requests| <= |s'.requests| && s'.requests[..|s.requests|] == s.requests
    && |s.pending| <= |s'.pending| && s'.pending[..|s.pending|] == s.pending
    && forall i :: |s.pending| <= i < |s'.pending| ==> s'.pending[i].id >= |s.requests|
  }

  lemma AppendedTwice(s: Shared, s1: Shared, s2: Shared)
    requires Appended(s, s1) && Appended(s1, s2)
    ensures Appended(s, s2)
  {
    assert s2.requests[..|s.requests|] == s2.requests[..|s1.requests|][..|s.requests|];
    assert s2.pending[..|s.pending|] == s2.pending[..|s1.pending|][..|s.pending|];
    forall i | |s.pending| <= i < |s2.pending|
      ensures s2.pending[i].id >= |s.requests|
    {
      if i < |s1.pending| { assert s2.pending[..|s1.pending|][i] == s1.pending[i]; }
    }
  }

  lemma StepAppends(c: Config, s: Pool, a: Action)
    requires Inv(c, s) && s.shared.done && Enabled(c, s, a)
    ensures Step(c, s, a).shared.done && Appended(s.shared, Step(c, s, a).shared)
  {
    if a.Relock? { assert WorkerInv(c, s.shared, s.workers[a.w]); }
  }

  lemma {:induction false} RunAppends(c: Config, s: Pool, run: seq<Action>)
    requires Inv(c, s) && s.shared.done && ValidRun(c, s, run)
    ensures After(c, s, run).shared.done && Appended(s.shared, After(c, s, run).shared)
    decreases |run|
  {
    if run != [] {
      var s1 := Step(c, s, run[0]);
      StepKeepsInv(c, s, run[0]);
      StepAppends(c, s, run[0]);
      RunAppends(c, s1, run[1..]);
      AppendedTwice(s.shared, s1.shared, After(c, s, run).shared);
    }
  }

  /** Every worker has left its loop, or died calling an empty callback. */
  predicate AtRest(ws: seq<Worker>)
  {
    forall w :: 0 <= w < |ws| ==> ws[w].phase.Exited? || ws[w].phase.Faulted?
  }

  lemma {:induction false} HeldAtRest(ws: seq<Worker>, id: nat)
    requires AtRest(ws) && forall w :: 0 <= w < |ws| && ws[w].phase.Faulted? ==> ws[w].phase.item.id != id
    ensures HeldIds(ws)[id] == 0
  {
    if ws != [] { HeldAtRest(ws[1..], id); }
  }

  lemma QueuedAfter(s: Shared, s': Shared, id: nat)
    requires Appended(s, s') && id < |s.requests|
    ensures id in Ids(s'.pending) <==> id in Ids(s.pending)
  {
    if id in Ids(s.pending) {
      var i :| 0 <= i < |s.pending| && Ids(s.pending)[i] == id;
      assert s'.pending[..|s.pending|][i] == s'.pending[i];
      assert Ids(s'.pending)[i] == id;
    }
    if id in Ids(s'.pending) {
      var i :| 0 <= i < |s'.pending| && Ids(s'.pending)[i] == id;
      assert s'.pending[i].id == id;
      assert s'.pending[..|s.pending|][i] == s.pending[i];
      assert Ids(s.pending)[i] == id;
    }
  }

  /** At rest nobody holds a request that has a callback. */
  lemma NotHeld(c: Config, s: Pool, id: nat)
    requires Inv(c, s) && AtRest(s.workers)
    requires id < |s.shared.requests| && s.shared.requests[id].hasCallback
    ensures HeldIds(s.workers)[id] == 0
  {
    forall w | 0 <= w < |s.workers| && s.workers[w].phase.Faulted?
      ensures s.workers[w].phase.item.id != id
    {
      assert WorkerInv(c, s.shared, s.workers[w]);
    }
    HeldAtRest(s.workers, id);
  }

  /**
   Of the requests with a callback submitted before a stop, exactly those not in the queue at that time are
   answered by the time the workers have ended, whatever else happens in between.
   */
  lemma AnsweredAfterStopExactly(c: Config, s: Pool, run: seq<Action>, id: nat)
    requires Reachable(c, s) && s.shared.done && ValidRun(c, s, run) && AtRest(After(c, s, run).workers)
    requires id < |s.shared.requests| && s.shared.requests[id].hasCallback
    ensures id in AnswerIds(After(c, s, run).shared.answers) <==> id !in Ids(s.shared.pending)
  {
    var s' := After(c, s, run);
    ReachableInv(c, s);
    RunAppends(c, s, run);
    QueuedAfter(s.shared, s'.shared, id);
    assert s'.shared.requests[..|s.shared.requests|][id] == s'.shared.requests[id];
    ReachableAfter(c, s, run);
    ReachableInv(c, s');
    NotHeld(c, s', id);
    ReachableDropped(c, s');
    assert id !in s'.shared.dropped;
    EveryRequestExactlyOnce(c, s', id);
    assert id in Ids(s'.shared.pending) <==> multiset(Ids(s'.shared.pending))[id] > 0;
    assert id in AnswerIds(s'.shared.answers) <==> multiset(AnswerIds(s'.shared.answers))[id] > 0;
  }

  /** Such a state exists: one worker, one request, and a stop before the worker has looked at the queue. */
  lemma UnansweredWitness(c: Config)
    ensures var s := Init([0]);
            var run := [Generate(1, 0, true), Stop, Lock(0)];
            && ValidRun(c, s, run) && After(c, s, run).shared.done && AtRest(After(c, s, run).workers)
            && After(c, s, run).shared.requests == [Item(0, 1, 0, true)]
            && After(c, s, run).shared.answers == []
  {
    var s, run := Init([0]), [Generate(1, 0, true), Stop, Lock(0)];
    var s1 := Step(c, s, run[0]);
    var s2 := Step(c, s1, Stop);
    assert run[1..] == [Stop, Lock(0)] && run[1..][1..] == [Lock(0)] && run[1..][1..][1..] == [];
    assert s2.workers[0].phase.Entering?;
    assert ValidRun(c, s2, [Lock(0)]) && After(c, s2, [Lock(0)]) == Step(c, s2, Lock(0));
    assert ValidRun(c, s1, [Stop, Lock(0)]);
  }

  // ---------- the threads end ----------

  /** Steps a worker of a stopped pool is away from its end; the rest of a batch counts in full. */
  function EndRank(p: Phase): nat
  {
    match p
    case Entering => 1
    case Sleeping => 2
    case Chosen(_, _) => 3
    case Searching(_, _, _, iteration) => 2 + iteration
    case Leaving(_, _, _) => 1
    case Delivering(_) => 2
    case _ => 0
  }

  function EndRanks(ws: seq<Worker>): nat
  {
    if ws == [] then 0 else EndRank(ws[0].phase) + EndRanks(ws[1..])
  }

  function EndBudget(s: Pool): nat
  {
    s.owed + EndRanks(s.workers)
  }

  lemma {:induction false} EndRanksUpdate(ws: seq<Worker>, w: nat, x: Worker)
    requires w < |ws|
    ensures EndRanks(ws[w := x]) + EndRank(ws[w].phase) == EndRanks(ws) + EndRank(x.phase)
  {
    if w == 0 {
      assert ws[w := x][1..] == ws[1..];
    } else {
      EndRanksUpdate(ws[1..], w - 1, x);
      assert ws[w := x][1..] == ws[1..][w - 1 := x];
    }
  }

  lemma {:induction false} EndRanksAwoken(ws: seq<Worker>)
    ensures EndRanks(Awoken(ws)) <= EndRanks(ws)
  {
    if ws != [] {
      AwokenRest(ws);
      EndRanksAwoken(ws[1..]);
    }
  }

  /** No luck is needed: every saved ticket is stale, so a search only finishes its batch. */
  lemma EndRankDrops(c: Config, s: Shared, x: Worker, a: Action)
    requires WorkerInv(c, s, x) && s.done && WorkerEnabled(c, x.phase, a)
    ensures EndRank(WorkerStep(c, s, x, a).phase) < EndRank(x.phase)
  {
  }

  /** Steps of the workers, waking up for nothing included, and notifications. */
  predicate Inner(a: Action)
  {
    !a.Cancel? && !a.Stop? && !a.Generate?
  }

  lemma EndStepCosts(c: Config, s: Pool, a: Action)
    requires Inv(c, s) && s.shared.done && Enabled(c, s, a)
    ensures EndBudget(Step(c, s, a)) + (if Inner(a) then 1 else 0)
         <= EndBudget(s) + (if a.Stop? || a.Generate? then 1 else 0)
  {
    if a.Notify? {
      EndRanksAwoken(s.workers);
    } else if Inner(a) {
      var x := s.workers[a.w];
      assert WorkerInv(c, s.shared, x);
      EndRankDrops(c, s.shared, x, a);
      EndRanksUpdate(s.workers, a.w, WorkerStep(c, s.shared, x, a));
    }
  }

  function InnerSteps(run: seq<Action>): nat
  {
    if run == [] then 0 else (if Inner(run[0]) then 1 else 0) + InnerSteps(run[1..])
  }

  function Notifying(run: seq<Action>): nat
  {
    if run == [] then 0 else (if run[0].Stop? || run[0].Generate? then 1 else 0) + Notifying(run[1..])
  }

  lemma {:induction false} EndRunCosts(c: Config, s: Pool, run: seq<Action>)
    requires Inv(c, s) && s.shared.done && ValidRun(c, s, run)
    ensures InnerSteps(run) <= EndBudget(s) + Notifying(run)
    decreases |run|
  {
    if run != [] {
      StepKeepsInv(c, s, run[0]);
      StepAppends(c, s, run[0]);
      EndStepCosts(c, s, run[0]);
      EndRunCosts(c, Step(c, s, run[0]), run[1..]);
    }
  }

  lemma {:induction false} EndRanksBound(c: Config, s: Shared, ws: seq<Worker>)
    requires forall w :: 0 <= w < |ws| ==> WorkerInv(c, s, ws[w])
    ensures EndRanks(ws) <= (BATCH + 2) * |ws|
  {
    if ws != [] {
      assert WorkerInv(c, s, ws[0]);
      EndRanksBound(c, s, ws[1..]);
    }
  }

  /**
   After a stop the workers of any reachable pool take at most 258 steps each, unlucky ones and spurious
   wakeups included, with one notification for each call that owes one.
   */
  lemma ShutdownIsBounded(c: Config, s: Pool, run: seq<Action>)
    requires Reachable(c, s) && s.shared.done && ValidRun(c, s, run)
    ensures InnerSteps(run) <= 258 * |s.workers| + s.owed + Notifying(run)
  {
    ReachableInv(c, s);
    EndRunCosts(c, s, run);
    EndRanksBound(c, s.shared, s.workers);
  }

  /** And where they come to rest every thread has ended, so that it can be joined. */
  lemma QuietMeansEnded(c: Config, s: Pool)
    requires Reachable(c, s) && s.shared.done && Quiet(c, s)
    ensures AtRest(s.workers)
  {
    ReachableInv(c, s);
    forall w | 0 <= w < |s.workers|
      ensures s.workers[w].phase.Exited? || s.workers[w].phase.Faulted?
    {
      if !s.workers[w].phase.Exited? && !s.workers[w].phase.Faulted? && !s.workers[w].phase.Sleeping? {
        AwakeWorkerCanStep(c, s, w);
      }
    }
  }
}
