/**
 What each call and each delivery does to the pool, stated on the state before and after, and the requests
 of a whole run read from the calls alone (work.cpp, generate, cancel, stop and the end of the loop).
 */
module WorkPoolEffects {
  import opened Options
  import opened Sequences
  import opened WorkPool
  import opened WorkPoolSafety

  // ---------- cancel ----------

  /**
   A stopped pool is left alone. Otherwise exactly the items with another root stay queued, exactly the
   others with a callback are told none, each list in the old order, and the ticket moves exactly when the
   front of the queue is cancelled.
   */
  ghost predicate CancelEffect(s: Shared, s': Shared, root: nat)
  {
    if s.done then s' == s
    else
      && (forall x :: x in s'.pending <==> x in s.pending && x.root != root)
      && (Increasing(Ids(s.pending)) ==> Increasing(Ids(s'.pending)))
      && (exists told ::
            && s'.answers == s.answers + told
            && (forall a :: a in told <==> ToldNone(s.pending, root, a))
            && (Increasing(Ids(s.pending)) ==> Increasing(AnswerIds(told))))
      && s'.ticket == s.ticket + (if s.pending != [] && s.pending[0].root == root then 1 else 0)
      && !s'.done && s'.requests == s.requests && s'.claims == s.claims
  }

  /** The answer none to a queued item with the root and a callback. */
  ghost predicate ToldNone(pending: seq<Item>, root: nat, a: Answer)
  {
    exists x :: Answered(pending, root, x) && a == Answer(x.id, None)
  }

  lemma ToldExactly(pending: seq<Item>, root: nat, a: Answer)
    ensures a in NoneAnswers(pending, root) <==> ToldNone(pending, root, a)
  {
    NoneAnswersSpec(pending, root);
    if a in NoneAnswers(pending, root) {
      var k :| 0 <= k < |NoneAnswers(pending, root)| && NoneAnswers(pending, root)[k] == a;
      var x :| Answered(pending, root, x) && x.id == NoneAnswers(pending, root)[k].id;
    }
  }

  lemma {:induction false} ToldIncreasing(pending: seq<Item>, root: nat)
    requires Increasing(Ids(pending))
    ensures Increasing(AnswerIds(NoneAnswers(pending, root)))
  {
    if pending != [] {
      var init, last := pending[..|pending| - 1], pending[|pending| - 1];
      assert pending == init + [last];
      CancelPush(init, last, root);
      IncreasingFront(Ids(init), last.id);
      ToldIncreasing(init, root);
      var told := AnswerIds(NoneAnswers(init, root));
      if last.root == root && last.hasCallback {
        forall i | 0 <= i < |told|
          ensures told[i] < last.id
        {
          ToldBelow(init, last, root, i);
        }
        IncreasingPush(told, last.id);
      } else {
        assert told + [] == told;
      }
    }
  }

  lemma ToldBelow(init: seq<Item>, last: Item, root: nat, i: nat)
    requires Increasing(Ids(init) + [last.id]) && i < |NoneAnswers(init, root)|
    ensures AnswerIds(NoneAnswers(init, root))[i] < last.id
  {
    var all := Ids(init) + [last.id];
    NoneAnswersSpec(init, root);
    var x :| Answered(init, root, x) && x.id == NoneAnswers(init, root)[i].id;
    assert x in init;
    var j :| 0 <= j < |init| && init[j] == x;
    assert all[j] == x.id && all[|init|] == last.id;
  }

  lemma KeptIncreasing(pending: seq<Item>, root: nat)
    requires Increasing(Ids(pending))
    ensures Increasing(Ids(Keep(pending, root)))
  {
    assert [] + Ids(pending) == Ids(pending);
    KeepIncreasing([], pending, root);
    assert [] + Ids(Keep(pending, root)) == Ids(Keep(pending, root));
  }

  lemma CancelledEffect(s: Shared, root: nat)
    ensures CancelEffect(s, Cancelled(s, root), root)
  {
    if !s.done {
      var s', told := Cancelled(s, root), NoneAnswers(s.pending, root);
      KeepSpec(s.pending, root);
      forall a ensures a in told <==> ToldNone(s.pending, root, a) {
        ToldExactly(s.pending, root, a);
      }
      if Increasing(Ids(s.pending)) {
        KeptIncreasing(s.pending, root);
        ToldIncreasing(s.pending, root);
      }
      assert s'.answers == s.answers + told;
    }
  }

  /** In every reachable state the queue is in submission order, so the two lists above are determined. */
  lemma CancelDoes(c: Config, s: Pool, root: nat)
    requires Reachable(c, s)
    ensures var s' := Step(c, s, Cancel(root));
            CancelEffect(s.shared, s'.shared, root) && s'.workers == s.workers && s'.owed == s.owed
    ensures Increasing(Ids(s.shared.pending))
  {
    CancelledEffect(s.shared, root);
    ClaimsInSubmissionOrder(c, s);
  }

  // ---------- generate and stop ----------

  /** The request is recorded as asked, queued if there are threads, and otherwise told none at once. */
  predicate GenerateEffect(s: Shared, s': Shared, threads: nat, root: nat, difficulty: nat, hasCallback: bool)
  {
    var item := Item(|s.requests|, root, difficulty, hasCallback);
    && s'.requests == s.requests + [item]
    && s'.pending == s.pending + (if threads > 0 then [item] else [])
    && s'.answers == s.answers + (if threads == 0 && hasCallback then [Answer(item.id, None)] else [])
    && s'.dropped == s.dropped + (if threads == 0 && !hasCallback then [item.id] else [])
    && s'.ticket == s.ticket && s'.done == s.done && s'.claims == s.claims
  }

  lemma SubmittedEffect(s: Shared, threads: nat, root: nat, difficulty: nat, hasCallback: bool)
    ensures GenerateEffect(s, Submitted(s, threads, root, difficulty, hasCallback), threads, root, difficulty, hasCallback)
  {
  }

  /** And a notify_all follows exactly if it was queued. */
  lemma GenerateDoes(c: Config, s: Pool, root: nat, difficulty: nat, hasCallback: bool)
    ensures var s' := Step(c, s, Generate(root, difficulty, hasCallback));
            && GenerateEffect(s.shared, s'.shared, |s.workers|, root, difficulty, hasCallback)
            && s'.workers == s.workers && s'.owed == s.owed + (if |s.workers| > 0 then 1 else 0)
  {
    SubmittedEffect(s.shared, |s.workers|, root, difficulty, hasCallback);
  }

  predicate StopEffect(s: Shared, s': Shared)
  {
    s' == Shared(s.ticket + 1, true, s.pending, s.requests, s.claims, s.answers, s.dropped)
  }

  lemma StopDoes(c: Config, s: Pool)
    ensures var s' := Step(c, s, Stop);
            StopEffect(s.shared, s'.shared) && s'.workers == s.workers && s'.owed == s.owed + 1
  {
  }

  // ---------- delivery ----------

  /** A worker that has claimed an item tells its callback the work it found, or fails on an empty one. */
  lemma DeliverDoes(c: Config, s: Pool, w: nat)
    requires Reachable(c, s) && w < |s.workers| && s.workers[w].phase.Delivering?
    ensures var item, work := s.workers[w].phase.item, s.workers[w].work;
            var s' := Step(c, s, Deliver(w));
            && c.value(item.root, work) >= item.difficulty
            && s'.shared.answers == s.shared.answers + (if item.hasCallback then [Answer(item.id, Some(work))] else [])
            && s'.workers[w].phase == (if item.hasCallback then Entering else Faulted(item))
            && s'.shared.pending == s.shared.pending && s'.shared.ticket == s.shared.ticket
  {
    ReachableInv(c, s);
    assert WorkerInv(c, s.shared, s.workers[w]);
  }

  // ---------- the requests of a run ----------

  datatype Request = Request(root: nat, difficulty: nat, hasCallback: bool)

  /** What the generate calls of a run ask for, in order. */
  function Asked(run: seq<Action>): seq<Request>
  {
    if run == [] then []
    else
      (if run[0].Generate? then [Request(run[0].root, run[0].difficulty, run[0].hasCallback)] else [])
      + Asked(run[1..])
  }

  function ItemsFrom(first: nat, asked: seq<Request>): (items: seq<Item>)
    ensures |items| == |asked|
    ensures forall i :: 0 <= i < |asked| ==>
              items[i] == Item(first + i, asked[i].root, asked[i].difficulty, asked[i].hasCallback)
  {
    seq(|asked|, i requires 0 <= i < |asked| =>
      Item(first + i, asked[i].root, asked[i].difficulty, asked[i].hasCallback))
  }

  lemma ItemsSplit(first: nat, r: Request, rest: seq<Request>)
    ensures ItemsFrom(first, [r] + rest)
         == [Item(first, r.root, r.difficulty, r.hasCallback)] + ItemsFrom(first + 1, rest)
  {
  }

  lemma StepRequests(c: Config, s: Pool, a: Action)
    requires Enabled(c, s, a)
    ensures Step(c, s, a).shared.requests
         == s.shared.requests
            + if a.Generate? then [Item(|s.shared.requests|, a.root, a.difficulty, a.hasCallback)] else []
  {
  }

  lemma {:induction false} RunRequests(c: Config, s: Pool, run: seq<Action>)
    requires ValidRun(c, s, run)
    ensures After(c, s, run).shared.requests == s.shared.requests + ItemsFrom(|s.shared.requests|, Asked(run))
    decreases |run|
  {
    if run != [] {
      StepRequests(c, s, run[0]);
      RunRequests(c, Step(c, s, run[0]), run[1..]);
      AskedSplit(s.shared.requests, run);
    }
  }

  /** The items asked for after some requests, the first action apart from the rest. */
  lemma AskedSplit(was: seq<Item>, run: seq<Action>)
    requires run != []
    ensures var now := was + if run[0].Generate? then [Item(|was|, run[0].root, run[0].difficulty, run[0].hasCallback)] else [];
            was + ItemsFrom(|was|, Asked(run)) == now + ItemsFrom(|now|, Asked(run[1..]))
  {
    var a, rest := run[0], Asked(run[1..]);
    if a.Generate? {
      ItemsSplit(|was|, Request(a.root, a.difficulty, a.hasCallback), rest);
      ConcatAssoc(was, [Item(|was|, a.root, a.difficulty, a.hasCallback)], ItemsFrom(|was| + 1, rest));
    } else {
      assert [] + rest == rest && was + [] == was;
    }
  }

  /** Every answer of a run is to a request made with a callback, and its work meets the difficulty asked for. */
  lemma AnswersMeetWhatWasAsked(c: Config, works: seq<nat>, run: seq<Action>, k: nat)
    requires ValidRun(c, Init(works), run) && k < |After(c, Init(works), run).shared.answers|
    ensures var a := After(c, Init(works), run).shared.answers[k];
            && a.id < |Asked(run)| && Asked(run)[a.id].hasCallback
            && (a.work.Some? ==> c.value(Asked(run)[a.id].root, a.work.value) >= Asked(run)[a.id].difficulty)
  {
    var s := After(c, Init(works), run);
    ReachableInv(c, s);
    RunRequests(c, Init(works), run);
    assert AnswerInv(c, s.shared, s.shared.answers[k]);
  }

  /** Every request of a run is answered at most once, and is queued, held, answered or dropped. */
  lemma EveryAskedExactlyOnce(c: Config, works: seq<nat>, run: seq<Action>, id: nat)
    requires ValidRun(c, Init(works), run)
    ensures var s := After(c, Init(works), run);
            multiset(Ids(s.shared.pending))[id] + HeldIds(s.workers)[id]
            + multiset(AnswerIds(s.shared.answers))[id] + multiset(s.shared.dropped)[id]
            == if id < |Asked(run)| then 1 else 0
  {
    RunRequests(c, Init(works), run);
    EveryRequestExactlyOnce(c, After(c, Init(works), run), id);
  }
}
