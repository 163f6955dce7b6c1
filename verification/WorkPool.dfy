/**
 The proof-of-work pool (work.cpp, work.hpp) as a step system. Any number of worker threads share the
 queue of pending requests, the ticket and the stop flag; every section that holds the pool mutex is one
 step, and so is every read of the atomic ticket outside it. The hash of a root and a work value is a
 parameter. Answers, claims and requests are kept as history.
 */
module WorkPool {
  import opened Options

  /** A queued work_item, numbered by submission. */
  datatype Item = Item(id: nat, root: nat, difficulty: nat, hasCallback: bool)

  /** One call of a request's callback. */
  datatype Answer = Answer(id: nat, work: Option<nat>)

  /** What the mutex protects, with the history of the callbacks run so far. */
  datatype Shared = Shared(
    ticket: nat,
    done: bool,
    pending: seq<Item>,
    requests: seq<Item>,   // everything ever submitted
    claims: seq<nat>,      // ids taken from the queue by workers, in order
    answers: seq<Answer>,  // callbacks run, in order
    dropped: seq<nat>      // ids cancelled without a callback to tell
  )

  /** Where a worker stands between two steps. */
  datatype Phase =
    | Entering                                                      // about to lock and look at the loop condition
    | Sleeping                                                      // waiting on the producer condition
    | Chosen(item: Item, saved: nat)                                // copied the front and the ticket, unlocked
    | Searching(item: Item, saved: nat, output: nat, iteration: nat) // in the CPU search
    | Leaving(item: Item, saved: nat, output: nat)                  // search over, about to lock again
    | Delivering(item: Item)                                        // popped the item, about to run its callback
    | Faulted(item: Item)                                           // called an empty callback
    | Exited

  /** The work value survives from one item to the next. */
  datatype Worker = Worker(phase: Phase, work: nat)

  datatype Pool = Pool(shared: Shared, workers: seq<Worker>, owed: nat) // owed: calls to notify_all still to come

  datatype Config = Config(value: (nat, nat) -> nat, opencl: bool)

  const BATCH: nat := 256

  // ---------- the lock sections, as functions on the shared state ----------

  function Keep(pending: seq<Item>, root: nat): seq<Item>
  {
    if pending == [] then []
    else
      var last := pending[|pending| - 1];
      Keep(pending[..|pending| - 1], root) + if last.root == root then [] else [last]
  }

  function NoneAnswers(pending: seq<Item>, root: nat): seq<Answer>
  {
    if pending == [] then []
    else
      var last := pending[|pending| - 1];
      NoneAnswers(pending[..|pending| - 1], root)
      + if last.root == root && last.hasCallback then [Answer(last.id, None)] else []
  }

  function Silent(pending: seq<Item>, root: nat): seq<nat>
  {
    if pending == [] then []
    else
      var last := pending[|pending| - 1];
      Silent(pending[..|pending| - 1], root) + if last.root == root && !last.hasCallback then [last.id] else []
  }

  function Cancelled(s: Shared, root: nat): Shared
  {
    if s.done then s
    else
      s.(ticket := if s.pending != [] && s.pending[0].root == root then s.ticket + 1 else s.ticket,
         pending := Keep(s.pending, root),
         answers := s.answers + NoneAnswers(s.pending, root),
         dropped := s.dropped + Silent(s.pending, root))
  }

  function Stopped(s: Shared): Shared
  {
    s.(done := true, ticket := s.ticket + 1)
  }

  /** generate: without threads the callback is told at once, otherwise the request is queued. */
  function Submitted(s: Shared, threads: nat, root: nat, difficulty: nat, hasCallback: bool): Shared
  {
    var item := Item(|s.requests|, root, difficulty, hasCallback);
    if threads > 0 then s.(requests := s.requests + [item], pending := s.pending + [item])
    else if hasCallback then s.(requests := s.requests + [item], answers := s.answers + [Answer(item.id, None)])
    else s.(requests := s.requests + [item], dropped := s.dropped + [item.id])
  }

  /** A successful claim: the ticket moves and the front of the queue is popped. */
  function Claimed(s: Shared, id: nat): Shared
  {
    s.(ticket := s.ticket + 1, pending := if s.pending == [] then [] else s.pending[1..], claims := s.claims + [id])
  }

  function Told(s: Shared, id: nat, work: nat): Shared
  {
    s.(answers := s.answers + [Answer(id, Some(work))])
  }

  /** What the head of the worker loop decides, the lock being held. */
  function LoopHead(s: Shared): Phase
  {
    if s.done then Exited else if s.pending == [] then Sleeping else Chosen(s.pending[0], s.ticket)
  }

  // ---------- steps ----------

  datatype Action =
    | Lock(w: nat)
    | Dispatch(w: nat, opencl: Option<nat>)
    | Poll(w: nat)
    | Attempt(w: nat, x: nat)
    | Relock(w: nat)
    | Deliver(w: nat)
    | Wake(w: nat)
    | Notify
    | Cancel(root: nat)
    | Stop
    | Generate(root: nat, difficulty: nat, hasCallback: bool)

  /** An OpenCL result, offered to worker 0 only, is taken to meet the difficulty. */
  predicate WorkerEnabled(c: Config, p: Phase, a: Action)
  {
    match a
    case Lock(_) => p.Entering?
    case Dispatch(w, r) =>
      p.Chosen? && (r.Some? ==> w == 0 && c.opencl && c.value(p.item.root, r.value) >= p.item.difficulty)
    case Poll(_) => p.Searching? && (p.iteration == 0 || p.output >= p.item.difficulty)
    case Attempt(_, _) => p.Searching? && p.iteration > 0 && p.output < p.item.difficulty
    case Relock(_) => p.Leaving?
    case Deliver(_) => p.Delivering?
    case Wake(_) => p.Sleeping?
    case _ => false
  }

  predicate Enabled(c: Config, s: Pool, a: Action)
  {
    match a
    case Notify => s.owed > 0
    case Cancel(_) => true
    case Stop => true
    case Generate(_, _, _) => true
    case _ => a.w < |s.workers| && WorkerEnabled(c, s.workers[a.w].phase, a)
  }

  function Awoken(ws: seq<Worker>): (r: seq<Worker>)
    ensures |r| == |ws|
    ensures forall i :: 0 <= i < |ws| ==>
              r[i] == if ws[i].phase.Sleeping? then ws[i].(phase := Entering) else ws[i]
  {
    seq(|ws|, i requires 0 <= i < |ws| => if ws[i].phase.Sleeping? then ws[i].(phase := Entering) else ws[i])
  }

  /** The worker's own state after one of its steps. */
  function WorkerStep(c: Config, s: Shared, x: Worker, a: Action): Worker
    requires WorkerEnabled(c, x.phase, a)
  {
    match a
    case Lock(_) => x.(phase := LoopHead(s))
    case Dispatch(_, None) => x.(phase := Searching(x.phase.item, x.phase.saved, 0, 0))
    case Dispatch(_, Some(work)) =>
      Worker(Leaving(x.phase.item, x.phase.saved, c.value(x.phase.item.root, work)), work)
    case Poll(_) =>
      if s.ticket == x.phase.saved && x.phase.output < x.phase.item.difficulty
      then x.(phase := x.phase.(iteration := BATCH))
      else x.(phase := Leaving(x.phase.item, x.phase.saved, x.phase.output))
    case Attempt(_, work) =>
      Worker(x.phase.(output := c.value(x.phase.item.root, work), iteration := x.phase.iteration - 1), work)
    case Relock(_) =>
      if s.ticket == x.phase.saved then x.(phase := Delivering(x.phase.item)) else x.(phase := LoopHead(s))
    case Deliver(_) => x.(phase := if x.phase.item.hasCallback then Entering else Faulted(x.phase.item))
    case Wake(_) => x.(phase := Entering)
  }

  /** What a worker's step does to the shared state. */
  function SharedStep(s: Shared, x: Worker, a: Action): Shared
  {
    match a
    case Relock(_) => if x.phase.Leaving? && s.ticket == x.phase.saved then Claimed(s, x.phase.item.id) else s
    case Deliver(_) =>
      if x.phase.Delivering? && x.phase.item.hasCallback then Told(s, x.phase.item.id, x.work) else s
    case _ => s
  }

  function Step(c: Config, s: Pool, a: Action): Pool
    requires Enabled(c, s, a)
  {
    match a
    case Notify => s.(owed := s.owed - 1, workers := Awoken(s.workers))
    case Cancel(root) => s.(shared := Cancelled(s.shared, root))
    case Stop => s.(shared := Stopped(s.shared), owed := s.owed + 1)
    case Generate(root, difficulty, hasCallback) =>
      s.(shared := Submitted(s.shared, |s.workers|, root, difficulty, hasCallback),
         owed := if |s.workers| > 0 then s.owed + 1 else s.owed)
    case _ =>
      var x := s.workers[a.w];
      s.(shared := SharedStep(s.shared, x, a), workers := s.workers[a.w := WorkerStep(c, s.shared, x, a)])
  }

  function Init(works: seq<nat>): Pool
  {
    Pool(Shared(0, false, [], [], [], [], []), seq(|works|, i requires 0 <= i < |works| => Worker(Entering, works[i])), 0)
  }

  predicate ValidRun(c: Config, s: Pool, run: seq<Action>)
    decreases |run|
  {
    run == [] || (Enabled(c, s, run[0]) && ValidRun(c, Step(c, s, run[0]), run[1..]))
  }

  function After(c: Config, s: Pool, run: seq<Action>): Pool
    requires ValidRun(c, s, run)
    decreases |run|
  {
    if run == [] then s else After(c, Step(c, s, run[0]), run[1..])
  }
}
