/**
 The send queue of the IPC client (ipc_client.cpp, async_write and write_queued_messages). All handlers run
 on one strand, so each is one step. Messages are numbers; the socket decides when a write ends and how.
 */
module SendQueue {
  import opened Options
  import opened Sequences

  const QUEUE_SIZE_MAX: nat := 65536

  /** The queue and the write in flight, with the history of what was accepted, started and finished. */
  datatype Queue = Queue(
    queue: seq<nat>, writing: Option<nat>, accepted: seq<nat>, started: seq<nat>, finished: seq<nat>, failed: bool)

  const EMPTY: Queue := Queue([], None, [], [], [], false)

  function StartFront(q: Queue): Queue
    requires q.queue != []
  {
    q.(writing := Some(q.queue[0]), started := q.started + [q.queue[0]])
  }

  /** The handler async_write posts: a full queue drops the message, an idle one starts it. */
  function Written(q: Queue, m: nat): Queue
  {
    var pushed :=
      if |q.queue| < QUEUE_SIZE_MAX then q.(queue := q.queue + [m], accepted := q.accepted + [m]) else q;
    if q.queue == [] then StartFront(pushed) else pushed
  }

  /** The completion handler: it pops the front, and goes on only if the write succeeded. */
  function Completed(q: Queue, ok: bool): Queue
    requires q.writing.Some?
  {
    var popped := q.(queue := if q.queue == [] then [] else q.queue[1..], writing := None,
                     finished := q.finished + [q.writing.value], failed := q.failed || !ok);
    if ok && popped.queue != [] then StartFront(popped) else popped
  }

  class Client {
    var sendQueue: seq<nat>
    var writing: Option<nat> // the message handed to the socket
    ghost var accepted: seq<nat>
    ghost var started: seq<nat>
    ghost var finished: seq<nat>
    ghost var failed: bool

    ghost function View(): Queue
      reads this
    {
      Queue(sendQueue, writing, accepted, started, finished, failed)
    }

    constructor ()
      ensures View() == EMPTY && Inv(View())
    {
      sendQueue, writing := [], None;
      accepted, started, finished, failed := [], [], [], false;
    }

    /** Never called while a write is in flight, nor on an empty queue. */
    method WriteQueuedMessages()
      requires writing.None? && sendQueue != []
      modifies this
      ensures View() == StartFront(old(View()))
    {
      writing := Some(sendQueue[0]);
      started := started + [sendQueue[0]];
    }

    method AsyncWrite(m: nat)
      requires Inv(View())
      modifies this
      ensures View() == Written(old(View()), m) && Inv(View())
    {
      WrittenKeepsInv(View(), m);
      var writeInProgress := sendQueue != [];
      if |sendQueue| < QUEUE_SIZE_MAX {
        sendQueue := sendQueue + [m];
        accepted := accepted + [m];
      }
      if !writeInProgress {
        WriteQueuedMessages();
      }
    }

    method OnWritten(ok: bool)
      requires Inv(View()) && writing.Some?
      modifies this
      ensures View() == Completed(old(View()), ok) && Inv(View())
    {
      CompletedKeepsInv(View(), ok);
      finished := finished + [writing.value];
      failed := failed || !ok;
      writing := None;
      sendQueue := sendQueue[1..];
      if ok && sendQueue != [] {
        WriteQueuedMessages();
      }
    }
  }

  // ---------- the invariant ----------

  predicate Inv(q: Queue)
  {
    && (q.writing.Some? ==> q.queue != [] && q.queue[0] == q.writing.value)
    && |q.queue| <= QUEUE_SIZE_MAX
    && q.accepted == q.finished + q.queue
    && q.started == q.finished + (if q.writing.Some? then [q.writing.value] else [])
    && (!q.failed ==> (q.queue != [] <==> q.writing.Some?))
  }

  lemma WrittenKeepsInv(q: Queue, m: nat)
    requires Inv(q)
    ensures Inv(Written(q, m))
  {
  }

  lemma CompletedKeepsInv(q: Queue, ok: bool)
    requires Inv(q) && q.writing.Some?
    ensures Inv(Completed(q, ok))
  {
    var q' := Completed(q, ok);
    assert q.queue == [q.queue[0]] + q.queue[1..];
    assert q'.accepted == q'.finished + q'.queue;
  }

  // ---------- runs ----------

  datatype Event = Write(m: nat) | Done(ok: bool)

  /** A write ends only if one is in flight. */
  predicate Enabled(q: Queue, e: Event)
  {
    e.Done? ==> q.writing.Some?
  }

  function Next(q: Queue, e: Event): Queue
    requires Enabled(q, e)
  {
    if e.Write? then Written(q, e.m) else Completed(q, e.ok)
  }

  predicate ValidRun(q: Queue, run: seq<Event>)
    decreases |run|
  {
    run == [] || (Enabled(q, run[0]) && ValidRun(Next(q, run[0]), run[1..]))
  }

  function After(q: Queue, run: seq<Event>): Queue
    requires ValidRun(q, run)
    decreases |run|
  {
    if run == [] then q else After(Next(q, run[0]), run[1..])
  }

  lemma NextKeepsInv(q: Queue, e: Event)
    requires Inv(q) && Enabled(q, e)
    ensures Inv(Next(q, e))
  {
    if e.Write? { WrittenKeepsInv(q, e.m); } else { CompletedKeepsInv(q, e.ok); }
  }

  lemma {:induction false} RunKeepsInv(q: Queue, run: seq<Event>)
    requires Inv(q) && ValidRun(q, run)
    ensures Inv(After(q, run))
    decreases |run|
  {
    if run != [] {
      NextKeepsInv(q, run[0]);
      RunKeepsInv(Next(q, run[0]), run[1..]);
    }
  }

  /**
   In every run: the write in flight, if any, is the front of a queue of at most 65536 messages; messages
   are started and finished in the order of acceptance, none skipped; and until a write fails, a write is
   in flight exactly when something is queued.
   */
  lemma SendsInOrder(run: seq<Event>)
    requires ValidRun(EMPTY, run)
    ensures var q := After(EMPTY, run);
            && (q.writing.Some? ==> q.queue != [] && q.queue[0] == q.writing.value)
            && |q.queue| <= QUEUE_SIZE_MAX
            && q.finished <= q.started <= q.accepted && |q.started| <= |q.finished| + 1
            && (!q.failed ==> (q.queue != [] <==> q.writing.Some?))
  {
    RunKeepsInv(EMPTY, run);
    var q := After(EMPTY, run);
    if q.writing.Some? {
      assert q.queue == [q.queue[0]] + q.queue[1..];
      ConcatAssoc(q.finished, [q.queue[0]], q.queue[1..]);
    }
  }

  /** A message sent while fewer than 65536 wait is accepted behind them, and one sent to a full queue is dropped. */
  lemma AcceptsExactly(run: seq<Event>, m: nat)
    requires ValidRun(EMPTY, run)
    ensures var q := After(EMPTY, run);
            var q' := Next(q, Write(m));
            && (if |q.queue| < 65536 then q'.queue == q.queue + [m] && q'.accepted == q.accepted + [m]
                else q'.queue == q.queue && q'.accepted == q.accepted)
            && (if q.queue == [] then q'.writing == Some(m) && q'.started == q.started + [m]
                else q'.writing == q.writing && q'.started == q.started)
            && q'.finished == q.finished && q'.failed == q.failed
  {
    RunKeepsInv(EMPTY, run);
  }

  /** A write that ends takes the front message off, and only after a success is the next one started. */
  lemma CompletionDoes(run: seq<Event>, ok: bool)
    requires ValidRun(EMPTY, run) && After(EMPTY, run).writing.Some?
    ensures var q := After(EMPTY, run);
            var q' := Next(q, Done(ok));
            && q.queue != [] && q.queue == [q.queue[0]] + q'.queue && q'.finished == q.finished + [q.queue[0]]
            && q'.writing == (if ok && q'.queue != [] then Some(q'.queue[0]) else None)
            && q'.started == q.started + (if q'.writing.Some? then [q'.writing.value] else [])
            && q'.accepted == q.accepted && q'.failed == (q.failed || !ok)
  {
    RunKeepsInv(EMPTY, run);
  }

  // ---------- after a failed write ----------

  /** Messages queued and no write in flight. */
  predicate Stuck(q: Queue)
  {
    q.queue != [] && q.writing.None?
  }

  /** A write fails, at some point of the run, with other messages queued behind it. */
  predicate FailsWithBacklog(q: Queue, run: seq<Event>)
    requires ValidRun(q, run)
    decreases |run|
  {
    run != [] && ((run[0] == Done(false) && |q.queue| >= 2) || FailsWithBacklog(Next(q, run[0]), run[1..]))
  }

  lemma NextStuck(q: Queue, e: Event)
    requires Inv(q) && Enabled(q, e)
    ensures Stuck(Next(q, e)) <==> Stuck(q) || (e == Done(false) && |q.queue| >= 2)
    ensures Stuck(q) ==> Next(q, e).started == q.started
  {
  }

  /** The queue is stuck exactly after a write has failed with messages behind it. */
  lemma {:induction false} StuckExactly(q: Queue, run: seq<Event>)
    requires Inv(q) && ValidRun(q, run)
    ensures Stuck(After(q, run)) <==> Stuck(q) || FailsWithBacklog(q, run)
    decreases |run|
  {
    if run != [] {
      NextKeepsInv(q, run[0]);
      NextStuck(q, run[0]);
      StuckExactly(Next(q, run[0]), run[1..]);
    }
  }

  /** It does happen: two messages, and the first write fails. */
  lemma StuckWitness()
    ensures var run := [Write(1), Write(2), Done(false)];
            ValidRun(EMPTY, run) && Stuck(After(EMPTY, run)) && After(EMPTY, run).queue == [2]
  {
    var run := [Write(1), Write(2), Done(false)];
    var q1 := Next(EMPTY, run[0]);
    var q2 := Next(q1, Write(2));
    assert run[1..] == [Write(2), Done(false)] && run[1..][1..] == [Done(false)] && run[1..][1..][1..] == [];
    assert q2.queue == [1, 2] && q2.writing == Some(1);
    assert ValidRun(q2, [Done(false)]) && After(q2, [Done(false)]) == Next(q2, Done(false));
    assert ValidRun(q1, [Write(2), Done(false)]);
  }

  /** And it stays so: from then on no message is ever written again, whatever is sent. */
  lemma {:induction false} StuckForever(q: Queue, run: seq<Event>)
    requires Inv(q) && Stuck(q) && ValidRun(q, run)
    ensures Stuck(After(q, run)) && After(q, run).started == q.started
    decreases |run|
  {
    if run != [] {
      NextKeepsInv(q, run[0]);
      NextStuck(q, run[0]);
      StuckForever(Next(q, run[0]), run[1..]);
    }
  }
}
