/**
 The work pool as an object: each method is one section of work.cpp that holds the pool mutex, proved to
 do what the step system does to the shared state, and the CPU search is the loop that runs outside it.
 */
module WorkPoolObject {
  import opened Options
  import opened WorkPool
  import opened WorkPoolEffects

  class PoolObject {
    const threads: nat
    var ticket: nat
    var done: bool
    var pending: seq<Item>
    var answers: seq<Answer> // what the callbacks were told
    ghost var requests: seq<Item>
    ghost var claims: seq<nat>
    ghost var dropped: seq<nat>
    var submitted: nat

    ghost function View(): Shared
      reads this
    {
      Shared(ticket, done, pending, requests, claims, answers, dropped)
    }

    ghost predicate Valid()
      reads this
    {
      submitted == |requests|
    }

    constructor (threads: nat)
      ensures Valid() && this.threads == threads
      ensures View() == Init([]).shared
    {
      this.threads := threads;
      ticket, done, pending, answers, submitted := 0, false, [], [], 0;
      requests, claims, dropped := [], [], [];
    }

    method Generate(root: nat, difficulty: nat, hasCallback: bool)
      requires Valid()
      modifies this
      ensures Valid() && View() == Submitted(old(View()), threads, root, difficulty, hasCallback)
      ensures GenerateEffect(old(View()), View(), threads, root, difficulty, hasCallback)
    {
      var item := Item(submitted, root, difficulty, hasCallback);
      submitted := submitted + 1;
      requests := requests + [item];
      if threads > 0 {
        pending := pending + [item];
      } else if hasCallback {
        answers := answers + [Answer(item.id, None)];
      } else {
        dropped := dropped + [item.id];
      }
    }

    method Stop()
      requires Valid()
      modifies this
      ensures Valid() && View() == Stopped(old(View())) && StopEffect(old(View()), View())
    {
      done := true;
      ticket := ticket + 1;
    }

    /** remove_if walks the queue once, telling each removed request's callback on the way. */
    method RemoveIf(root: nat)
      modifies this
      ensures pending == Keep(old(pending), root)
      ensures answers == old(answers) + NoneAnswers(old(pending), root)
      ensures dropped == old(dropped) + Silent(old(pending), root)
      ensures unchanged(`ticket) && unchanged(`done) && unchanged(`requests) && unchanged(`claims) && unchanged(`submitted)
    {
      var queue, kept := pending, [];
      for i := 0 to |queue|
        invariant kept == Keep(queue[..i], root)
        invariant answers == old(answers) + NoneAnswers(queue[..i], root)
        invariant dropped == old(dropped) + Silent(queue[..i], root)
        invariant unchanged(`ticket) && unchanged(`done) && unchanged(`requests) && unchanged(`claims)
        invariant unchanged(`submitted)
      {
        assert queue[..i + 1][..i] == queue[..i];
        if queue[i].root == root {
          if queue[i].hasCallback {
            answers := answers + [Answer(queue[i].id, None)];
          } else {
            dropped := dropped + [queue[i].id];
          }
        } else {
          kept := kept + [queue[i]];
        }
      }
      assert queue[..|queue|] == queue;
      pending := kept;
    }

    method Cancel(root: nat)
      requires Valid()
      modifies this
      ensures Valid() && View() == Cancelled(old(View()), root)
      ensures CancelEffect(old(View()), View(), root)
    {
      CancelledEffect(View(), root);
      if done { return; }
      if pending != [] && pending[0].root == root {
        ticket := ticket + 1;
      }
      RemoveIf(root);
    }

    /** The head of the worker loop: exit, sleep, or copy the front item and the ticket. */
    method Enter() returns (p: Phase)
      ensures p == LoopHead(View())
    {
      if done {
        p := Exited;
      } else if pending == [] {
        p := Sleeping;
      } else {
        p := Chosen(pending[0], ticket);
      }
    }

    /** After the search: claim the front item if the ticket has not moved. */
    method TryClaim(item: Item, saved: nat) returns (claimed: bool)
      requires Valid()
      requires ticket == saved ==> pending != []
      modifies this
      ensures Valid() && claimed == (old(ticket) == saved)
      ensures View() == if claimed then Claimed(old(View()), item.id) else old(View())
    {
      claimed := ticket == saved;
      if claimed {
        ticket := ticket + 1;
        pending := pending[1..];
        claims := claims + [item.id];
      }
    }

    /** The callback of a claimed item, run outside the lock. */
    method Tell(item: Item, work: nat)
      requires Valid() && item.hasCallback
      modifies this
      ensures Valid() && View() == Told(old(View()), item.id, work)
      ensures answers == old(answers) + [Answer(item.id, Some(work))]
    {
      answers := answers + [Answer(item.id, Some(work))];
    }
  }

  /**
   The CPU search. `seen` holds the values that successive reads of the ticket return while the search is
   watched, `rng` gives the random work values, and `left` says whether the search ended by then.
   */
  method CpuSearch(
    value: (nat, nat) -> nat, item: Item, saved: nat, seen: seq<nat>, rng: nat -> nat, work0: nat)
    returns (work: nat, output: nat, attempts: nat, polls: nat, left: bool)
    ensures polls <= |seen| && (left ==> polls > 0)
    // the result is the hash of the last value tried, and no value tried before it was good enough
    ensures if attempts == 0 then work == work0 && output == 0
            else work == rng(attempts - 1) && output == value(item.root, work)
    ensures forall k :: 0 <= k < attempts - 1 ==> value(item.root, rng(k)) < item.difficulty
    // it goes on while the ticket stands still, one batch for each read
    ensures forall k :: 0 <= k < (if left then polls - 1 else polls) ==> seen[k] == saved
    ensures attempts <= BATCH * if left then polls - 1 else polls
    // and it ends on a good value or on a moved ticket
    ensures if left then output >= item.difficulty || seen[polls - 1] != saved else polls == |seen|
  {
    work, output, attempts, polls, left := work0, 0, 0, 0, false;
    while polls < |seen|
      invariant polls <= |seen|
      invariant if attempts == 0 then work == work0 && output == 0
                else work == rng(attempts - 1) && output == value(item.root, work)
      invariant forall k :: 0 <= k < attempts - 1 ==> value(item.root, rng(k)) < item.difficulty
      invariant forall k :: 0 <= k < polls ==> seen[k] == saved
      invariant attempts <= BATCH * polls
    {
      polls := polls + 1;
      if seen[polls - 1] != saved || output >= item.difficulty {
        left := true;
        return;
      }
      var iteration := BATCH;
      while iteration > 0 && output < item.difficulty
        invariant 0 <= iteration <= BATCH
        invariant if attempts == 0 then work == work0 && output == 0
                  else work == rng(attempts - 1) && output == value(item.root, work)
        invariant forall k :: 0 <= k < attempts - 1 ==> value(item.root, rng(k)) < item.difficulty
        invariant attempts <= BATCH * (polls - 1) + (BATCH - iteration)
      {
        work := rng(attempts);
        output := value(item.root, work);
        attempts := attempts + 1;
        iteration := iteration - 1;
      }
    }
  }
}
