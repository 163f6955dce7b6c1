/**
 Safety of the work pool over every run, for any number of workers: the same ticket means the same front
 item, results meet the difficulty asked for, claims follow submission order, no wakeup is lost, and every
 request is accounted for exactly once.
 */
module WorkPoolSafety {
  import opened Options
  import opened WorkPool

  // ---------- the invariant ----------

  predicate Known(s: Shared, item: Item)
  {
    item.id < |s.requests| && s.requests[item.id] == item
  }

  predicate Increasing(ids: seq<nat>)
  {
    forall i, j :: 0 <= i < j < |ids| ==> ids[i] < ids[j]
  }

  function Ids(items: seq<Item>): (ids: seq<nat>)
    ensures |ids| == |items| && forall i :: 0 <= i < |ids| ==> ids[i] == items[i].id
  {
    seq(|items|, i requires 0 <= i < |items| => items[i].id)
  }

  /** Items are queued, and claimed, in submission order. */
  ghost predicate QueueInv(s: Shared)
  {
    && (forall i :: 0 <= i < |s.requests| ==> s.requests[i].id == i)
    && (forall i :: 0 <= i < |s.pending| ==> Known(s, s.pending[i]))
    && Increasing(s.claims + Ids(s.pending))
    && (forall i :: 0 <= i < |s.claims| ==> s.claims[i] < |s.requests|)
  }

  predicate Carrying(p: Phase)
  {
    p.Chosen? || p.Searching? || p.Leaving?
  }

  /** The same ticket means the same front item; a search result is the hash of the kept work value. */
  ghost predicate WorkerInv(c: Config, s: Shared, x: Worker)
  {
    var p := x.phase;
    && (Carrying(p) ==>
          && Known(s, p.item) && p.saved <= s.ticket
          && (p.saved == s.ticket ==> !s.done && s.pending != [] && s.pending[0] == p.item))
    && (p.Searching? ==> p.iteration <= BATCH)
    && (p.Searching? || p.Leaving? ==> p.output == 0 || p.output == c.value(p.item.root, x.work))
    && (p.Leaving? && p.saved == s.ticket ==> p.output >= p.item.difficulty)
    && (p.Delivering? ==> Known(s, p.item) && c.value(p.item.root, x.work) >= p.item.difficulty)
    && (p.Faulted? ==> Known(s, p.item) && !p.item.hasCallback)
    && (p.Exited? ==> s.done)
  }

  ghost predicate AnswerInv(c: Config, s: Shared, a: Answer)
  {
    && a.id < |s.requests| && s.requests[a.id].hasCallback
    && (a.work.Some? ==> c.value(s.requests[a.id].root, a.work.value) >= s.requests[a.id].difficulty)
  }

  /** A worker asleep although there is something to do has a notify_all coming. */
  ghost predicate WakeInv(s: Pool)
  {
    (s.shared.pending != [] || s.shared.done) && (exists w :: 0 <= w < |s.workers| && s.workers[w].phase.Sleeping?)
    ==> s.owed > 0
  }

  ghost predicate Inv(c: Config, s: Pool)
  {
    && QueueInv(s.shared)
    && (forall w :: 0 <= w < |s.workers| ==> WorkerInv(c, s.shared, s.workers[w]))
    && (forall k :: 0 <= k < |s.shared.answers| ==> AnswerInv(c, s.shared, s.shared.answers[k]))
    && WakeInv(s)
  }

  /** s' can follow s: as long as the ticket stands still, the front of the queue and the flag do too. */
  ghost predicate Follows(s: Shared, s': Shared)
  {
    && s.ticket <= s'.ticket
    && (s.done ==> s'.done)
    && |s.requests| <= |s'.requests| && s'.requests[..|s.requests|] == s.requests
    && (s.ticket == s'.ticket ==>
          && s'.done == s.done
          && (s.pending != [] ==> s'.pending != [] && s'.pending[0] == s.pending[0]))
  }

  lemma FollowsKeepsWorker(c: Config, s: Shared, s': Shared, x: Worker)
    requires Follows(s, s') && WorkerInv(c, s, x)
    ensures WorkerInv(c, s', x)
  {
    var p := x.phase;
    if Carrying(p) || p.Delivering? || p.Faulted? {
      assert s'.requests[..|s.requests|][p.item.id] == s.requests[p.item.id];
    }
  }

  lemma FollowsKeepsAnswer(c: Config, s: Shared, s': Shared, a: Answer)
    requires Follows(s, s') && AnswerInv(c, s, a)
    ensures AnswerInv(c, s', a)
  {
    assert s'.requests[..|s.requests|][a.id] == s.requests[a.id];
  }

  // ---------- cancel ----------

  lemma {:induction false} KeepSpec(pending: seq<Item>, root: nat)
    ensures forall x :: x in Keep(pending, root) <==> x in pending && x.root != root
    ensures pending != [] && pending[0].root != root ==> Keep(pending, root) != [] && Keep(pending, root)[0] == pending[0]
  {
    if pending != [] {
      var init, last := pending[..|pending| - 1], pending[|pending| - 1];
      KeepSpec(init, root);
      assert pending == init + [last];
      if init == [] { assert Keep(init, root) == []; }
    }
  }

  lemma IncreasingPush(ids: seq<nat>, id: nat)
    requires Increasing(ids) && forall i :: 0 <= i < |ids| ==> ids[i] < id
    ensures Increasing(ids + [id])
  {
  }

  /** What is claimed, or kept of the queue, comes before an item behind them all. */
  lemma KeptBelow(claims: seq<nat>, init: seq<Item>, last: Item, root: nat, i: nat)
    requires Increasing(claims + Ids(init) + [last.id]) && i < |claims + Ids(Keep(init, root))|
    ensures (claims + Ids(Keep(init, root)))[i] < last.id
  {
    var all := claims + Ids(init) + [last.id];
    assert all[|claims| + |init|] == last.id;
    if i < |claims| {
      assert all[i] == claims[i];
    } else {
      var x := Keep(init, root)[i - |claims|];
      KeepSpec(init, root);
      assert x in init;
      var j :| 0 <= j < |init| && init[j] == x;
      assert all[|claims| + j] == Ids(init)[j] == x.id;
    }
  }

  lemma IncreasingFront(ids: seq<nat>, id: nat)
    requires Increasing(ids + [id])
    ensures Increasing(ids)
  {
    assert forall i :: 0 <= i < |ids| ==> ids[i] == (ids + [id])[i];
  }

  lemma {:induction false} KeepIncreasing(claims: seq<nat>, pending: seq<Item>, root: nat)
    requires Increasing(claims + Ids(pending))
    ensures Increasing(claims + Ids(Keep(pending, root)))
  {
    if pending != [] {
      var init, last := pending[..|pending| - 1], pending[|pending| - 1];
      assert claims + Ids(pending) == claims + Ids(init) + [last.id];
      IncreasingFront(claims + Ids(init), last.id);
      KeepIncreasing(claims, init, root);
      if last.root != root {
        var kept := claims + Ids(Keep(init, root));
        assert claims + Ids(Keep(pending, root)) == kept + [last.id];
        forall i | 0 <= i < |kept|
          ensures kept[i] < last.id
        {
          KeptBelow(claims, init, last, root, i);
        }
        IncreasingPush(kept, last.id);
      } else {
        assert Keep(pending, root) == Keep(init, root);
      }
    }
  }

  /** An item of the queue that a cancel of root answers. */
  predicate Answered(pending: seq<Item>, root: nat, x: Item)
  {
    x in pending && x.root == root && x.hasCallback
  }

  lemma {:induction false} NoneAnswersSpec(pending: seq<Item>, root: nat)
    ensures forall k :: 0 <= k < |NoneAnswers(pending, root)| ==>
              NoneAnswers(pending, root)[k].work == None
              && exists x :: Answered(pending, root, x) && x.id == NoneAnswers(pending, root)[k].id
    ensures forall x :: Answered(pending, root, x) ==> Answer(x.id, None) in NoneAnswers(pending, root)
  {
    if pending != [] {
      var init, last := pending[..|pending| - 1], pending[|pending| - 1];
      NoneAnswersSpec(init, root);
      assert pending == init + [last];
      forall k | 0 <= k < |NoneAnswers(pending, root)|
        ensures NoneAnswers(pending, root)[k].work == None
                && exists x :: Answered(pending, root, x) && x.id == NoneAnswers(pending, root)[k].id
      {
        if k < |NoneAnswers(init, root)| {
          assert NoneAnswers(pending, root)[k] == NoneAnswers(init, root)[k];
          var x :| Answered(init, root, x) && x.id == NoneAnswers(init, root)[k].id;
          assert Answered(pending, root, x);
        } else {
          assert Answered(pending, root, last);
        }
      }
    }
  }

  lemma CancelKeepsInv(c: Config, s: Shared, root: nat)
    requires QueueInv(s)
    requires forall k :: 0 <= k < |s.answers| ==> AnswerInv(c, s, s.answers[k])
    ensures QueueInv(Cancelled(s, root)) && Follows(s, Cancelled(s, root))
    ensures forall k :: 0 <= k < |Cancelled(s, root).answers| ==> AnswerInv(c, Cancelled(s, root), Cancelled(s, root).answers[k])
  {
    if !s.done {
      var s' := Cancelled(s, root);
      KeepSpec(s.pending, root);
      KeepIncreasing(s.claims, s.pending, root);
      NoneAnswersSpec(s.pending, root);
      forall i | 0 <= i < |s'.pending|
        ensures Known(s', s'.pending[i])
      {
        assert s'.pending[i] in s.pending;
      }
      forall k | 0 <= k < |s'.answers|
        ensures AnswerInv(c, s', s'.answers[k])
      {
        if k < |s.answers| {
          assert s'.answers[k] == s.answers[k];
          FollowsKeepsAnswer(c, s, s', s.answers[k]);
        } else {
          var a := NoneAnswers(s.pending, root)[k - |s.answers|];
          assert s'.answers[k] == a;
          var x :| Answered(s.pending, root, x) && x.id == a.id;
        }
      }
    }
  }

  // ---------- the other steps ----------

  lemma ClaimKeepsQueue(s: Shared)
    requires QueueInv(s) && s.pending != []
    ensures QueueInv(Claimed(s, s.pending[0].id)) && Follows(s, Claimed(s, s.pending[0].id))
  {
    var s' := Claimed(s, s.pending[0].id);
    assert s'.claims + Ids(s'.pending) == s.claims + Ids(s.pending);
    assert s'.requests[..|s.requests|] == s.requests;
    assert Known(s, s.pending[0]);
  }

  lemma SubmitKeepsQueue(s: Shared, threads: nat, root: nat, difficulty: nat, hasCallback: bool)
    requires QueueInv(s)
    ensures var s' := Submitted(s, threads, root, difficulty, hasCallback);
            QueueInv(s') && Follows(s, s')
  {
    var s' := Submitted(s, threads, root, difficulty, hasCallback);
    assert s'.requests[..|s.requests|] == s.requests;
    if threads > 0 {
      var item := s'.requests[|s.requests|];
      assert s'.claims + Ids(s'.pending) == (s.claims + Ids(s.pending)) + [item.id];
      forall i | 0 <= i < |s.claims + Ids(s.pending)|
        ensures (s.claims + Ids(s.pending))[i] < item.id
      {
        if i >= |s.claims| { assert Known(s, s.pending[i - |s.claims|]); }
      }
    }
  }

  /** A worker's own step keeps the queue, and the worker's part of the invariant. */
  lemma WorkerStepKeeps(c: Config, s: Shared, x: Worker, a: Action)
    requires QueueInv(s) && WorkerInv(c, s, x) && WorkerEnabled(c, x.phase, a)
    ensures QueueInv(SharedStep(s, x, a)) && Follows(s, SharedStep(s, x, a))
    ensures WorkerInv(c, SharedStep(s, x, a), WorkerStep(c, s, x, a))
  {
    assert s.requests[..|s.requests|] == s.requests;
    if a.Relock? && s.ticket == x.phase.saved { ClaimKeepsQueue(s); }
    if s.pending != [] { assert Known(s, s.pending[0]); }
  }

  lemma WorkerStepKeepsAnswers(c: Config, s: Shared, x: Worker, a: Action)
    requires QueueInv(s) && WorkerInv(c, s, x) && WorkerEnabled(c, x.phase, a)
    requires forall k :: 0 <= k < |s.answers| ==> AnswerInv(c, s, s.answers[k])
    ensures var s' := SharedStep(s, x, a);
            forall k :: 0 <= k < |s'.answers| ==> AnswerInv(c, s', s'.answers[k])
  {
  }

  lemma SharedOnlyStep(c: Config, s: Pool, s': Pool)
    requires Inv(c, s) && QueueInv(s'.shared) && Follows(s.shared, s'.shared)
    requires forall k :: 0 <= k < |s'.shared.answers| ==> AnswerInv(c, s'.shared, s'.shared.answers[k])
    requires s'.workers == s.workers && WakeInv(s')
    ensures Inv(c, s')
  {
    forall w | 0 <= w < |s.workers|
      ensures WorkerInv(c, s'.shared, s'.workers[w])
    {
      FollowsKeepsWorker(c, s.shared, s'.shared, s.workers[w]);
    }
  }

  lemma CancelStep(c: Config, s: Pool, root: nat)
    requires Inv(c, s)
    ensures Inv(c, Step(c, s, Cancel(root)))
  {
    CancelKeepsInv(c, s.shared, root);
    var s' := Step(c, s, Cancel(root));
    if s'.shared.pending != [] {
      KeepSpec(s.shared.pending, root);
      assert s'.shared.pending[0] in s.shared.pending;
    }
    SharedOnlyStep(c, s, s');
  }

  lemma StopStep(c: Config, s: Pool)
    requires Inv(c, s)
    ensures Inv(c, Step(c, s, Stop))
  {
    var s' := Step(c, s, Stop);
    assert s'.shared.requests[..|s.shared.requests|] == s.shared.requests;
    SharedOnlyStep(c, s, s');
  }

  lemma GenerateStep(c: Config, s: Pool, a: Action)
    requires Inv(c, s) && a.Generate?
    ensures Inv(c, Step(c, s, a))
  {
    var s' := Step(c, s, a);
    SubmitKeepsQueue(s.shared, |s.workers|, a.root, a.difficulty, a.hasCallback);
    forall k | 0 <= k < |s'.shared.answers|
      ensures AnswerInv(c, s'.shared, s'.shared.answers[k])
    {
      if k < |s.shared.answers| { FollowsKeepsAnswer(c, s.shared, s'.shared, s.shared.answers[k]); }
    }
    SharedOnlyStep(c, s, s');
  }

  lemma WorkerActionStep(c: Config, s: Pool, a: Action)
    requires Inv(c, s) && Enabled(c, s, a)
    requires !a.Notify? && !a.Cancel? && !a.Stop? && !a.Generate?
    ensures Inv(c, Step(c, s, a))
  {
    var s' := Step(c, s, a);
    var x := s.workers[a.w];
    WorkerStepKeeps(c, s.shared, x, a);
    WorkerStepKeepsAnswers(c, s.shared, x, a);
    forall w | 0 <= w < |s'.workers|
      ensures WorkerInv(c, s'.shared, s'.workers[w])
    {
      if w != a.w { FollowsKeepsWorker(c, s.shared, s'.shared, s.workers[w]); }
    }
    if exists w :: 0 <= w < |s'.workers| && s'.workers[w].phase.Sleeping? {
      var w :| 0 <= w < |s'.workers| && s'.workers[w].phase.Sleeping?;
      if w != a.w { assert s.workers[w].phase.Sleeping?; }
    }
  }

  /** Every step keeps the invariant. */
  lemma StepKeepsInv(c: Config, s: Pool, a: Action)
    requires Inv(c, s) && Enabled(c, s, a)
    ensures Inv(c, Step(c, s, a))
  {
    match a
    case Notify =>
    case Cancel(root) => CancelStep(c, s, root);
    case Stop => StopStep(c, s);
    case Generate(_, _, _) => GenerateStep(c, s, a);
    case _ => WorkerActionStep(c, s, a);
  }

  lemma {:induction false} RunKeepsInv(c: Config, s: Pool, run: seq<Action>)
    requires Inv(c, s) && ValidRun(c, s, run)
    ensures Inv(c, After(c, s, run))
    decreases |run|
  {
    if run != [] {
      StepKeepsInv(c, s, run[0]);
      RunKeepsInv(c, Step(c, s, run[0]), run[1..]);
    }
  }

  ghost predicate Reachable(c: Config, s: Pool)
  {
    exists works: seq<nat>, run: seq<Action> :: ValidRun(c, Init(works), run) && After(c, Init(works), run) == s
  }

  lemma InitInv(c: Config, works: seq<nat>)
    ensures Inv(c, Init(works))
  {
    var s := Init(works);
    forall w | 0 <= w < |s.workers|
      ensures WorkerInv(c, s.shared, s.workers[w]) && !s.workers[w].phase.Sleeping?
    {
      assert s.workers[w].phase == Entering;
    }
  }

  lemma ReachableInv(c: Config, s: Pool)
    requires Reachable(c, s)
    ensures Inv(c, s)
  {
    var works: seq<nat>, run: seq<Action> :| ValidRun(c, Init(works), run) && After(c, Init(works), run) == s;
    InitInv(c, works);
    RunKeepsInv(c, Init(works), run);
  }

  // ---------- what the invariant says about claims ----------

  /** A claim pops exactly the item the worker solved, and the work it will deliver meets the difficulty. */
  lemma ClaimTakesSolvedItem(c: Config, s: Pool, w: nat)
    requires Reachable(c, s) && w < |s.workers| && s.workers[w].phase.Leaving?
    requires s.workers[w].phase.saved == s.shared.ticket
    ensures var item := s.workers[w].phase.item;
            var s' := Step(c, s, Relock(w));
            && s.shared.pending == [item] + s'.shared.pending
            && s'.shared.claims == s.shared.claims + [item.id]
            && s'.workers[w].phase == Delivering(item)
            && c.value(item.root, s'.workers[w].work) >= item.difficulty
  {
    ReachableInv(c, s);
    assert WorkerInv(c, s.shared, s.workers[w]);
  }

  /** Once one worker has claimed, no other worker's saved ticket is good any more. */
  lemma ClaimIsExclusive(c: Config, s: Pool, w: nat, v: nat)
    requires Reachable(c, s) && w < |s.workers| && v < |s.workers| && w != v
    requires s.workers[w].phase.Leaving? && s.workers[w].phase.saved == s.shared.ticket
    requires Carrying(s.workers[v].phase)
    ensures var s' := Step(c, s, Relock(w));
            s'.workers[v] == s.workers[v] && s'.workers[v].phase.saved != s'.shared.ticket
  {
    ReachableInv(c, s);
    assert WorkerInv(c, s.shared, s.workers[v]);
  }

  /** Claims happen in submission order, each request at most once, and only ahead of what is still queued. */
  lemma ClaimsInSubmissionOrder(c: Config, s: Pool)
    requires Reachable(c, s)
    ensures Increasing(s.shared.claims) && Increasing(Ids(s.shared.pending))
    ensures forall i, j :: 0 <= i < |s.shared.claims| && 0 <= j < |s.shared.pending| ==>
              s.shared.claims[i] < Ids(s.shared.pending)[j]
  {
    ReachableInv(c, s);
    IncreasingParts(s.shared.claims, Ids(s.shared.pending));
  }

  lemma IncreasingParts(x: seq<nat>, y: seq<nat>)
    requires Increasing(x + y)
    ensures Increasing(x) && Increasing(y)
    ensures forall i, j :: 0 <= i < |x| && 0 <= j < |y| ==> x[i] < y[j]
  {
    assert forall i :: 0 <= i < |x| ==> x[i] == (x + y)[i];
    assert forall j :: 0 <= j < |y| ==> y[j] == (x + y)[|x| + j];
  }

  /** Every work value ever delivered meets the difficulty of its request. */
  lemma DeliveredWorkMeetsDifficulty(c: Config, s: Pool, k: nat)
    requires Reachable(c, s) && k < |s.shared.answers| && s.shared.answers[k].work.Some?
    ensures var a := s.shared.answers[k];
            a.id < |s.shared.requests|
            && c.value(s.shared.requests[a.id].root, a.work.value) >= s.shared.requests[a.id].difficulty
  {
    ReachableInv(c, s);
    assert AnswerInv(c, s.shared, s.shared.answers[k]);
  }

  /** No worker sleeps through work or a stop unless a notify_all is still to come. */
  lemma NoLostWakeup(c: Config, s: Pool, w: nat)
    requires Reachable(c, s) && w < |s.workers| && s.workers[w].phase.Sleeping?
    requires s.shared.pending != [] || s.shared.done
    ensures s.owed > 0
  {
    ReachableInv(c, s);
  }

  // ---------- every request is accounted for exactly once ----------

  function AnswerIds(answers: seq<Answer>): (ids: seq<nat>)
    ensures |ids| == |answers| && forall i :: 0 <= i < |ids| ==> ids[i] == answers[i].id
  {
    seq(|answers|, i requires 0 <= i < |answers| => answers[i].id)
  }

  function Held(x: Worker): multiset<nat>
  {
    if x.phase.Delivering? || x.phase.Faulted? then multiset{x.phase.item.id} else multiset{}
  }

  function HeldIds(ws: seq<Worker>): multiset<nat>
  {
    if ws == [] then multiset{} else Held(ws[0]) + HeldIds(ws[1..])
  }

  lemma AddToBoth(z: multiset<nat>, a: multiset<nat>, p: multiset<nat>, b: multiset<nat>, q: multiset<nat>)
    requires a + p == b + q
    ensures z + a + p == z + b + q
  {
    assert z + a + p == z + (a + p);
    assert z + b + q == z + (b + q);
  }

  lemma {:induction false} HeldUpdate(ws: seq<Worker>, w: nat, x: Worker)
    requires w < |ws|
    ensures HeldIds(ws[w := x]) + Held(ws[w]) == HeldIds(ws) + Held(x)
  {
    var rest, ws' := ws[1..], ws[w := x];
    if w == 0 {
      assert ws'[1..] == rest;
      AddToBoth(HeldIds(rest), Held(x), Held(ws[0]), Held(ws[0]), Held(x));
    } else {
      HeldUpdate(rest, w - 1, x);
      assert ws'[1..] == rest[w - 1 := x];
      assert ws'[0] == ws[0] && rest[w - 1] == ws[w];
      AddToBoth(Held(ws[0]), HeldIds(rest[w - 1 := x]), Held(ws[w]), HeldIds(rest), Held(x));
    }
  }

  lemma AwokenRest(ws: seq<Worker>)
    requires ws != []
    ensures Awoken(ws)[1..] == Awoken(ws[1..]) && Held(Awoken(ws)[0]) == Held(ws[0])
  {
  }

  lemma {:induction false} HeldAwoken(ws: seq<Worker>)
    ensures HeldIds(Awoken(ws)) == HeldIds(ws)
  {
    if ws != [] {
      AwokenRest(ws);
      HeldAwoken(ws[1..]);
    }
  }

  function AllIds(n: nat): multiset<nat>
  {
    if n == 0 then multiset{} else AllIds(n - 1) + multiset{n - 1}
  }

  lemma {:induction false} AllIdsOnce(n: nat, id: nat)
    ensures AllIds(n)[id] == if id < n then 1 else 0
  {
    if n > 0 { AllIdsOnce(n - 1, id); }
  }

  /** Queued, popped and not yet answered, answered, or cancelled without a callback. */
  function Ledger(s: Pool): multiset<nat>
  {
    SharedLedger(s.shared) + HeldIds(s.workers)
  }

  function SharedLedger(s: Shared): multiset<nat>
  {
    multiset(Ids(s.pending)) + multiset(AnswerIds(s.answers)) + multiset(s.dropped)
  }

  /** What one more item at the end of the queue adds to each of the four lists. */
  lemma CancelPush(init: seq<Item>, last: Item, root: nat)
    ensures Ids(init + [last]) == Ids(init) + [last.id]
    ensures Ids(Keep(init + [last], root)) == Ids(Keep(init, root)) + if last.root != root then [last.id] else []
    ensures AnswerIds(NoneAnswers(init + [last], root))
         == AnswerIds(NoneAnswers(init, root)) + if last.root == root && last.hasCallback then [last.id] else []
    ensures Silent(init + [last], root)
         == Silent(init, root) + if last.root == root && !last.hasCallback then [last.id] else []
  {
    assert (init + [last])[..|init|] == init;
  }

  /** Appending to one of three parts appends to the whole. */
  lemma PushOne(all: seq<nat>, k: seq<nat>, n: seq<nat>, s: seq<nat>, id: nat)
    requires multiset(all) == multiset(k) + multiset(n) + multiset(s)
    ensures multiset(all + [id]) == multiset(k + [id]) + multiset(n) + multiset(s)
    ensures multiset(all + [id]) == multiset(k) + multiset(n + [id]) + multiset(s)
    ensures multiset(all + [id]) == multiset(k) + multiset(n) + multiset(s + [id])
  {
  }

  /** Kept, told and dropped ids make up all of them. */
  predicate Splits(all: seq<nat>, k: seq<nat>, n: seq<nat>, s: seq<nat>)
  {
    multiset(all) == multiset(k) + multiset(n) + multiset(s)
  }

  lemma PushSplits(all: seq<nat>, k: seq<nat>, n: seq<nat>, s: seq<nat>, id: nat, toK: bool, toN: bool)
    requires Splits(all, k, n, s)
    ensures Splits(all + [id], k + if toK then [id] else [], n + if !toK && toN then [id] else [],
                   s + if !toK && !toN then [id] else [])
  {
    PushOne(all, k, n, s, id);
    assert k + [] == k && n + [] == n && s + [] == s;
  }

  lemma {:induction false} CancelBalances(pending: seq<Item>, root: nat)
    ensures Splits(Ids(pending), Ids(Keep(pending, root)), AnswerIds(NoneAnswers(pending, root)), Silent(pending, root))
  {
    if pending != [] {
      var init, last := pending[..|pending| - 1], pending[|pending| - 1];
      CancelBalances(init, root);
      assert pending == init + [last];
      CancelPush(init, last, root);
      PushSplits(Ids(init), Ids(Keep(init, root)), AnswerIds(NoneAnswers(init, root)), Silent(init, root), last.id,
                 last.root != root, last.hasCallback);
    }
  }

  lemma LedgerOfCancel(s: Shared, root: nat)
    ensures SharedLedger(Cancelled(s, root)) == SharedLedger(s)
  {
    if !s.done {
      CancelBalances(s.pending, root);
      assert AnswerIds(Cancelled(s, root).answers) == AnswerIds(s.answers) + AnswerIds(NoneAnswers(s.pending, root));
    }
  }

  lemma LedgerOfClaim(s: Shared)
    requires s.pending != []
    ensures SharedLedger(Claimed(s, s.pending[0].id)) + multiset{s.pending[0].id} == SharedLedger(s)
  {
    assert Ids(s.pending) == [s.pending[0].id] + Ids(s.pending[1..]);
  }

  lemma LedgerOfTold(s: Shared, id: nat, work: nat)
    ensures SharedLedger(Told(s, id, work)) == SharedLedger(s) + multiset{id}
  {
    assert AnswerIds(Told(s, id, work).answers) == AnswerIds(s.answers) + [id];
  }

  /** What a worker's step takes from the shared part of the ledger it holds afterwards. */
  lemma LedgerOfWorker(c: Config, s: Shared, x: Worker, a: Action)
    requires WorkerInv(c, s, x) && WorkerEnabled(c, x.phase, a)
    ensures SharedLedger(SharedStep(s, x, a)) + Held(WorkerStep(c, s, x, a)) == SharedLedger(s) + Held(x)
    ensures SharedStep(s, x, a).requests == s.requests
  {
    if a.Relock? && s.ticket == x.phase.saved {
      LedgerOfClaim(s);
    } else if a.Deliver? && x.phase.item.hasCallback {
      LedgerOfTold(s, x.phase.item.id, x.work);
    }
  }

  lemma LedgerOfWorkerStep(c: Config, s: Pool, a: Action)
    requires Inv(c, s) && Enabled(c, s, a)
    requires !a.Notify? && !a.Cancel? && !a.Stop? && !a.Generate?
    ensures Ledger(Step(c, s, a)) == Ledger(s) && Step(c, s, a).shared.requests == s.shared.requests
  {
    var x := s.workers[a.w];
    LedgerOfWorker(c, s.shared, x, a);
    HeldUpdate(s.workers, a.w, WorkerStep(c, s.shared, x, a));
    Transfer(SharedLedger(s.shared), SharedLedger(SharedStep(s.shared, x, a)), Held(x), Held(WorkerStep(c, s.shared, x, a)),
             HeldIds(s.workers), HeldIds(Step(c, s, a).workers));
  }

  lemma Transfer(l: multiset<nat>, l': multiset<nat>, h: multiset<nat>, h': multiset<nat>, all: multiset<nat>, all': multiset<nat>)
    requires l' + h' == l + h && all' + h == all + h'
    ensures l' + all' == l + all
  {
    forall x: nat
      ensures (l' + all')[x] == (l + all)[x]
    {
      assert l'[x] + h'[x] == (l' + h')[x] == (l + h)[x] == l[x] + h[x];
      assert all'[x] + h[x] == (all' + h)[x] == (all + h')[x] == all[x] + h'[x];
    }
  }

  lemma LedgerOfGenerate(c: Config, s: Pool, a: Action)
    requires a.Generate?
    ensures var s' := Step(c, s, a);
            && |s'.shared.requests| == |s.shared.requests| + 1
            && Ledger(s') == Ledger(s) + multiset{|s.shared.requests| as nat}
  {
    var s' := Step(c, s, a);
    var id := |s.shared.requests|;
    var p, n, d := Ids(s.shared.pending), AnswerIds(s.shared.answers), s.shared.dropped;
    if |s.workers| > 0 {
      assert Ids(s'.shared.pending) == p + [id];
    } else if a.hasCallback {
      assert AnswerIds(s'.shared.answers) == n + [id];
    }
    LedgerPush(p, n, d, HeldIds(s.workers), id);
  }

  lemma LedgerPush(p: seq<nat>, n: seq<nat>, d: seq<nat>, held: multiset<nat>, id: nat)
    ensures var all := multiset(p) + multiset(n) + multiset(d) + held + multiset{id};
            && multiset(p + [id]) + multiset(n) + multiset(d) + held == all
            && multiset(p) + multiset(n + [id]) + multiset(d) + held == all
            && multiset(p) + multiset(n) + multiset(d + [id]) + held == all
  {
  }

  lemma StepKeepsLedger(c: Config, s: Pool, a: Action)
    requires Inv(c, s) && Enabled(c, s, a) && Ledger(s) == AllIds(|s.shared.requests|)
    ensures Ledger(Step(c, s, a)) == AllIds(|Step(c, s, a).shared.requests|)
  {
    match a
    case Notify => HeldAwoken(s.workers);
    case Cancel(root) => LedgerOfCancel(s.shared, root);
    case Stop =>
    case Generate(_, _, _) => LedgerOfGenerate(c, s, a);
    case _ => LedgerOfWorkerStep(c, s, a);
  }

  lemma {:induction false} RunKeepsLedger(c: Config, s: Pool, run: seq<Action>)
    requires Inv(c, s) && ValidRun(c, s, run) && Ledger(s) == AllIds(|s.shared.requests|)
    ensures Ledger(After(c, s, run)) == AllIds(|After(c, s, run).shared.requests|)
    decreases |run|
  {
    if run != [] {
      StepKeepsInv(c, s, run[0]);
      StepKeepsLedger(c, s, run[0]);
      RunKeepsLedger(c, Step(c, s, run[0]), run[1..]);
    }
  }

  lemma {:induction false} NobodyHolds(ws: seq<Worker>)
    requires forall i :: 0 <= i < |ws| ==> ws[i].phase.Entering?
    ensures HeldIds(ws) == multiset{}
  {
    if ws != [] { NobodyHolds(ws[1..]); }
  }

  /** At any time, each request is in exactly one place, once. */
  lemma EveryRequestExactlyOnce(c: Config, s: Pool, id: nat)
    requires Reachable(c, s)
    ensures multiset(Ids(s.shared.pending))[id] + HeldIds(s.workers)[id]
            + multiset(AnswerIds(s.shared.answers))[id] + multiset(s.shared.dropped)[id]
            == if id < |s.shared.requests| then 1 else 0
  {
    var works: seq<nat>, run: seq<Action> :| ValidRun(c, Init(works), run) && After(c, Init(works), run) == s;
    InitInv(c, works);
    NobodyHolds(Init(works).workers);
    RunKeepsLedger(c, Init(works), run);
    AllIdsOnce(|s.shared.requests|, id);
  }
}
