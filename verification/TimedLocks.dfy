/**
 The timed locks (locks.cpp, locks.hpp) and the timer inside them (timer.cpp). A step that would fire one of
 the timer's assertions, unlock a mutex nobody holds or follow a null mutex reference has no result.
 */
module TimedLocks {
  import opened Options

  datatype Timer = Timer(started: bool, begin: int, ticks: int, measurements: nat)

  const FRESH: Timer := Timer(false, 0, 0, 0)

  /** Asserts that the timer is stopped. */
  function Start(t: Timer, now: int): Option<Timer>
  {
    if t.started then None else Some(t.(started := true, begin := now))
  }

  /** Asserts that the timer is started. */
  function Stop(t: Timer, now: int): Option<Timer>
  {
    if t.started then Some(t.(started := false, ticks := t.ticks + (now - t.begin))) else None
  }

  function Restart(now: int): Timer
  {
    Timer(true, now, 0, 0)
  }

  /** Where the thread using a lock stands: inside no call, blocked in lock, or asleep or re-locking in wait. */
  datatype Phase = Idle | Locking | Sleeping | Relocking

  /** A unique_lock, or a lock_guard (scoped); M names the mutexes. */
  datatype Lock<+M> = Lock(scoped: bool, mut: Option<M>, owns: bool, timer: Timer, phase: Phase)

  datatype Outcome = Done | NotPermitted | WouldDeadlock

  function Validate<M>(l: Lock<M>): Outcome
  {
    if l.mut.None? then NotPermitted else if l.owns then WouldDeadlock else Done
  }

  function Permitted<M>(l: Lock<M>): Outcome
  {
    if l.mut.None? || !l.owns then NotPermitted else Done
  }

  /** The first half of lock_impl, up to the blocking call. */
  function Begun<M>(l: Lock<M>, now: int, phase: Phase): Option<Lock<M>>
  {
    match Start(l.timer, now)
    case None => None
    case Some(t) => Some(l.(timer := t, phase := phase))
  }

  /** The tail of output_if_held_long_enough. */
  function StopIfRunning(t: Timer, now: int): Timer
  {
    match Stop(t, now)
    case None => t
    case Some(t') => t'
  }

  /** What a lock becomes once it has unlocked its mutex. */
  function Unlocked<M>(l: Lock<M>, now: int): Lock<M>
  {
    l.(owns := false, timer := StopIfRunning(l.timer, now))
  }

  /** The timer changes wait makes around the condition variable, which then unlocks through the lock. */
  function Slept<M>(l: Lock<M>, now: int): Option<Lock<M>>
  {
    match Start(StopIfRunning(l.timer, now), now)
    case None => None
    case Some(t) => Some(Unlocked(l.(timer := t), now).(phase := Sleeping))
  }

  function MovedFrom<M>(l: Lock<M>): Lock<M>
  {
    l.(mut := None, owns := false)
  }

  /** A lock with a mutex owns it exactly when its timer runs, except while a thread blocks inside it. */
  predicate Good<M>(l: Lock<M>)
  {
    && (l.mut.None? ==> !l.owns && l.phase.Idle? && !l.scoped)
    && (l.mut.Some? && l.phase.Idle? ==> (l.owns <==> l.timer.started))
    && (!l.phase.Idle? ==> !l.owns && (l.timer.started <==> !l.phase.Sleeping?))
    && (l.scoped ==> (l.owns <==> l.phase.Idle?))
  }

  // ---------- the objects ----------

  class Mutex {
    var held: bool

    constructor ()
      ensures !held
    {
      held := false;
    }
  }

  /** A lock between calls; a blocking call is given the mutex free, as it is when the call gets past it. */
  class UniqueLock {
    var mut: Mutex?
    var owns: bool
    var timer: Timer

    ghost function View(): Lock<Mutex>
      reads this
    {
      Lock(false, if mut == null then None else Some(mut), owns, timer, Idle)
    }

    ghost predicate Valid()
      reads this, mut
    {
      Good(View()) && (owns ==> mut != null && mut.held)
    }

    constructor Deferred(m: Mutex)
      ensures Valid() && View() == Lock(false, Some(m), false, FRESH, Idle)
    {
      mut, owns, timer := m, false, FRESH;
    }

    constructor (m: Mutex, now: int)
      requires !m.held
      modifies m
      ensures Valid() && m.held && Begun(Lock(false, Some(m), false, FRESH, Idle), now, Idle).Some?
      ensures View() == Begun(Lock(false, Some(m), false, FRESH, Idle), now, Idle).value.(owns := true)
    {
      mut, owns, timer := m, true, Start(FRESH, now).value;
      new;
      m.held := true;
    }

    method AcquireLock(now: int) returns (r: Outcome)
      requires Valid() && (mut != null && !owns ==> !mut.held)
      modifies this, mut
      ensures Valid() && r == Validate(old(View()))
      ensures r == if old(mut) == null then NotPermitted else if old(owns) then WouldDeadlock else Done
      ensures r.Done? ==> owns && timer == Timer(true, now, old(timer.ticks), old(timer.measurements))
      ensures r.Done? ==> mut == old(mut) && mut.held && Begun(old(View()), now, Locking).Some?
                          && View() == Begun(old(View()), now, Locking).value.(owns := true, phase := Idle)
      ensures !r.Done? ==> View() == old(View()) && (mut != null ==> mut.held == old(mut.held))
    {
      if mut == null { return NotPermitted; }
      if owns { return WouldDeadlock; }
      timer := Start(timer, now).value;
      mut.held := true;
      owns := true;
      r := Done;
    }

    method TryLock(now: int) returns (r: Outcome, got: bool)
      requires Valid()
      modifies this, mut
      ensures Valid() && mut == old(mut) && r == Validate(old(View()))
      ensures r == if old(mut) == null then NotPermitted else if old(owns) then WouldDeadlock else Done
      ensures got <==> r.Done? && !old(mut.held)
      ensures got ==> owns && timer == Timer(true, now, old(timer.ticks), old(timer.measurements))
      ensures got ==> mut.held && Begun(old(View()), now, Idle).Some?
                      && View() == Begun(old(View()), now, Idle).value.(owns := true)
      ensures !got ==> View() == old(View()) && (mut != null ==> mut.held == old(mut.held))
    {
      got := false;
      if mut == null { return NotPermitted, false; }
      if owns { return WouldDeadlock, false; }
      owns := !mut.held;
      mut.held := true;
      if owns {
        timer := Start(timer, now).value;
      }
      r, got := Done, owns;
    }

    method Unlock(now: int) returns (r: Outcome)
      requires Valid()
      modifies this, mut
      ensures Valid() && mut == old(mut) && r == Permitted(old(View()))
      ensures r == if old(mut) == null || !old(owns) then NotPermitted else Done
      ensures r.Done? ==>
                !mut.held && !owns
                && timer == Timer(false, old(timer.begin), old(timer.ticks) + (now - old(timer.begin)), old(timer.measurements))
      ensures r.Done? ==> !mut.held && View() == Unlocked(old(View()), now)
      ensures !r.Done? ==> View() == old(View()) && (mut != null ==> mut.held == old(mut.held))
    {
      if mut == null || !owns { return NotPermitted; }
      mut.held := false;
      owns := false;
      timer := StopIfRunning(timer, now);
      r := Done;
    }

    /** Move-assignment into this lock: what it owned is released, and other is left without a mutex. */
    method MoveAssign(other: UniqueLock, now: int)
      requires Valid() && other.Valid() && (owns && other.owns && mut == other.mut ==> this == other)
      modifies this, mut, other
      ensures Valid() && other.Valid()
      ensures this == other ==> View() == old(View()) && (mut != null ==> mut.held == old(mut.held))
      ensures this != other ==> View() == old(other.View()) && other.View() == MovedFrom(old(other.View()))
      ensures this != other && old(owns) ==> !old(mut).held
    {
      if this != other {
        if owns {
          mut.held := false;
          owns := false;
          timer := StopIfRunning(timer, now);
        }
        mut, owns, timer := other.mut, other.owns, other.timer;
        other.mut, other.owns := null, false;
      }
    }

    method Destroy(now: int)
      requires Valid()
      modifies this, mut
      ensures Valid() && !owns && mut == old(mut)
      ensures mut != null ==> mut.held == (old(mut.held) && !old(owns))
    {
      if owns {
        mut.held := false;
        owns := false;
        timer := StopIfRunning(timer, now);
      }
    }

    /** condition_variable::wait: the mutex is given up in between and held again at the end. */
    method Wait(now: int, woken: int, back: int) returns (r: Outcome)
      requires Valid()
      modifies this, mut
      ensures Valid() && mut == old(mut) && r == Permitted(old(View()))
      ensures r == if old(mut) == null || !old(owns) then NotPermitted else Done
      ensures r.Done? ==> owns && timer == Timer(true, back, 0, 0)
      ensures r.Done? ==> mut.held && View() == old(View()).(timer := Restart(back))
      ensures !r.Done? ==> View() == old(View()) && (mut != null ==> mut.held == old(mut.held))
    {
      if mut == null || !owns { return NotPermitted; }
      timer := StopIfRunning(timer, now);
      timer := Start(timer, now).value;
      r := Unlock(now);
      r := AcquireLock(woken);
      timer := Restart(back);
    }
  }

  class LockGuard {
    const mut: Mutex
    var timer: Timer

    ghost predicate Valid()
      reads this, mut
    {
      mut.held && timer.started
    }

    constructor (m: Mutex, now: int)
      requires !m.held
      modifies m
      ensures Valid() && mut == m && timer == Start(FRESH, now).value
    {
      mut, timer := m, Start(FRESH, now).value;
      new;
      m.held := true;
    }

    method Destroy(now: int)
      requires Valid()
      modifies this, mut
      ensures !mut.held && timer == Stop(old(timer), now).value
    {
      mut.held := false;
      timer := StopIfRunning(timer, now);
    }
  }

  // ---------- many locks, mutexes and threads ----------

  /** All locks and the held mutexes, with the history of acquisitions and releases. */
  datatype System = System(
    locks: map<nat, Lock<nat>>, held: set<nat>, acquired: multiset<nat>, released: multiset<nat>)

  const START: System := System(map[], {}, multiset{}, multiset{})

  datatype Action =
    | New(id: nat)
    | NewDeferred(id: nat, m: nat)
    | NewLocked(id: nat, m: nat, scoped: bool, now: int)
    | CallLock(id: nat, now: int)
    | Acquire(id: nat)
    | CallTryLock(id: nat, got: bool, now: int)
    | CallUnlock(id: nat, now: int)
    | Move(to: nat, from: nat, now: int)
    | Delete(id: nat, now: int)
    | CallWait(id: nat, now: int)
    | Wake(id: nat, now: int)
    | Resume(id: nat, now: int)

  /** A unique_lock no thread is inside of. */
  predicate Usable(s: System, id: nat)
  {
    id in s.locks && !s.locks[id].scoped && s.locks[id].phase.Idle?
  }

  predicate Free(s: System, l: Lock<nat>)
  {
    l.mut.Some? && l.mut.value !in s.held
  }

  /** Blocked threads go on only when the mutex is free; try_lock may fail on a free mutex. */
  predicate Enabled(s: System, a: Action)
  {
    match a
    case New(id) => id !in s.locks
    case NewDeferred(id, _) => id !in s.locks
    case NewLocked(id, _, _, _) => id !in s.locks
    case CallLock(id, _) => Usable(s, id)
    case Acquire(id) => id in s.locks && s.locks[id].phase.Locking? && Free(s, s.locks[id])
    case CallTryLock(id, got, _) =>
      Usable(s, id) && (got ==> Validate(s.locks[id]).Done? && Free(s, s.locks[id]))
    case CallUnlock(id, _) => Usable(s, id)
    case Move(to, from, _) => Usable(s, to) && Usable(s, from)
    case Delete(id, _) => id in s.locks && s.locks[id].phase.Idle?
    case CallWait(id, _) => Usable(s, id)
    case Wake(id, _) => id in s.locks && s.locks[id].phase.Sleeping?
    case Resume(id, _) => id in s.locks && s.locks[id].phase.Relocking? && Free(s, s.locks[id])
  }

  function Put(s: System, id: nat, l: Lock<nat>): System
  {
    s.(locks := s.locks[id := l])
  }

  function PutIf(s: System, id: nat, l: Option<Lock<nat>>): Option<System>
  {
    if l.None? then None else Some(Put(s, id, l.value))
  }

  function Taken(s: System, id: nat, l: Lock<nat>): System
    requires l.mut.Some?
  {
    Put(s, id, l.(owns := true, phase := Idle)).(
      held := s.held + {l.mut.value}, acquired := s.acquired + multiset{l.mut.value})
  }

  function TakenIf(s: System, id: nat, l: Option<Lock<nat>>): Option<System>
    requires l.Some? ==> l.value.mut.Some?
  {
    if l.None? then None else Some(Taken(s, id, l.value))
  }

  /** Unlock the mutex lock id points to. */
  function GivenUp(s: System, id: nat, now: int): Option<System>
    requires id in s.locks
  {
    var l := s.locks[id];
    if l.mut.None? || l.mut.value !in s.held then None
    else Some(Put(s, id, Unlocked(l, now)).(
      held := s.held - {l.mut.value}, released := s.released + multiset{l.mut.value}))
  }

  function Moved(s: System, to: nat, from: nat): System
    requires from in s.locks
  {
    Put(Put(s, to, s.locks[from]), from, MovedFrom(s.locks[from]))
  }

  function Step(s: System, a: Action): Option<System>
    requires Enabled(s, a)
  {
    match a
    case New(id) => Some(Put(s, id, Lock(false, None, false, FRESH, Idle)))
    case NewDeferred(id, m) => Some(Put(s, id, Lock(false, Some(m), false, FRESH, Idle)))
    case NewLocked(id, m, scoped, now) => PutIf(s, id, Begun(Lock(scoped, Some(m), false, FRESH, Idle), now, Locking))
    case CallLock(id, now) =>
      if Validate(s.locks[id]).Done? then PutIf(s, id, Begun(s.locks[id], now, Locking)) else Some(s)
    case Acquire(id) => Some(Taken(s, id, s.locks[id]))
    case CallTryLock(id, got, now) => if got then TakenIf(s, id, Begun(s.locks[id], now, Idle)) else Some(s)
    case CallUnlock(id, now) => if Permitted(s.locks[id]).Done? then GivenUp(s, id, now) else Some(s)
    case Move(to, from, now) =>
      if to == from then Some(s)
      else
        var s' := if s.locks[to].owns then GivenUp(s, to, now) else Some(s);
        if s'.None? then None else Some(Moved(s'.value, to, from))
    case Delete(id, now) =>
      var s' := if s.locks[id].scoped || s.locks[id].owns then GivenUp(s, id, now) else Some(s);
      if s'.None? then None else Some(s'.value.(locks := s'.value.locks - {id}))
    case CallWait(id, now) =>
      if !Permitted(s.locks[id]).Done? then Some(s)
      else
        var l, s' := Slept(s.locks[id], now), GivenUp(s, id, now);
        if s'.None? then None else PutIf(s'.value, id, l)
    case Wake(id, now) =>
      if Validate(s.locks[id]).Done? then PutIf(s, id, Begun(s.locks[id], now, Relocking)) else None
    case Resume(id, now) => Some(Taken(s, id, s.locks[id].(timer := Restart(now))))
  }

  // ---------- the invariant ----------

  predicate Owner(s: System, m: nat, id: nat)
  {
    id in s.locks && s.locks[id].mut == Some(m) && s.locks[id].owns
  }

  ghost predicate OneOwner(s: System)
  {
    forall m, i, j :: Owner(s, m, i) && Owner(s, m, j) ==> i == j
  }

  ghost predicate HeldIffOwned(s: System)
  {
    forall m :: m in s.held <==> exists i :: Owner(s, m, i)
  }

  /** Every acquisition so far has been released once, except the latest one of each held mutex. */
  predicate Balanced(s: System)
  {
    s.acquired == s.released + multiset(s.held)
  }

  ghost predicate Inv(s: System)
  {
    && (forall i :: i in s.locks ==> Good(s.locks[i]))
    && OneOwner(s)
    && HeldIffOwned(s)
    && Balanced(s)
  }

  /** Replacing a lock by one that owns the same mutex, or likewise none, changes no ownership. */
  lemma PutKeepsInv(s: System, id: nat, l: Lock<nat>)
    requires Inv(s) && Good(l)
    requires id in s.locks && s.locks[id].owns ==> l.owns && l.mut == s.locks[id].mut
    requires l.owns ==> id in s.locks && s.locks[id].owns
    ensures Inv(Put(s, id, l))
  {
    var s' := Put(s, id, l);
    assert forall m, i :: Owner(s', m, i) <==> Owner(s, m, i);
  }

  lemma TakenKeepsInv(s: System, id: nat, l: Lock<nat>)
    requires Inv(s) && Free(s, l) && Good(l.(owns := true, phase := Idle))
    requires id in s.locks ==> !s.locks[id].owns
    ensures Inv(Taken(s, id, l))
  {
    var s', n := Taken(s, id, l), l.mut.value;
    assert forall m, i :: Owner(s', m, i) <==> Owner(s, m, i) || (m == n && i == id);
    assert Owner(s', n, id);
    assert multiset(s'.held) == multiset(s.held) + multiset{n};
  }

  /** Unlocking frees exactly the mutex of the lock, whether the lock then stays or goes. */
  lemma OwnerGone(s: System, id: nat, r: Option<System>, locks: map<nat, Lock<nat>>)
    requires Inv(s) && id in s.locks && s.locks[id].owns
    requires exists now :: r == GivenUp(s, id, now)
    requires id in locks ==> !locks[id].owns && Good(locks[id])
    requires forall i :: i != id ==> (i in locks <==> i in s.locks) && (i in locks ==> locks[i] == s.locks[i])
    ensures r.Some? && Inv(r.value.(locks := locks))
  {
    var n := s.locks[id].mut.value;
    assert Owner(s, n, id);
    var s' := r.value.(locks := locks);
    forall m, i ensures Owner(s', m, i) <==> Owner(s, m, i) && m != n {
      if i != id {
        assert i in locks <==> i in s.locks;
      }
    }
    assert multiset(s.held) == multiset(s'.held) + multiset{n};
  }

  lemma GivenUpKeepsInv(s: System, id: nat, now: int)
    requires Inv(s) && id in s.locks && s.locks[id].owns && !s.locks[id].scoped
    ensures GivenUp(s, id, now).Some? && Inv(GivenUp(s, id, now).value)
  {
    OwnerGone(s, id, GivenUp(s, id, now), s.locks[id := Unlocked(s.locks[id], now)]);
  }

  lemma MovedKeepsInv(s: System, to: nat, from: nat)
    requires Inv(s) && Usable(s, to) && Usable(s, from) && to != from && !s.locks[to].owns
    ensures Inv(Moved(s, to, from))
  {
    var s' := Moved(s, to, from);
    assert forall m, i :: Owner(s', m, i) <==> (if i == to then Owner(s, m, from) else i != from && Owner(s, m, i));
    forall m ensures m in s'.held <==> exists i :: Owner(s', m, i) {
      if m in s.held {
        var i :| Owner(s, m, i);
        assert Owner(s', m, if i == from then to else i);
      }
    }
  }

  lemma MoveKeepsInv(s: System, to: nat, from: nat, now: int)
    requires Inv(s) && Usable(s, to) && Usable(s, from)
    ensures Step(s, Move(to, from, now)).Some? && Inv(Step(s, Move(to, from, now)).value)
  {
    if to != from {
      if s.locks[to].owns {
        GivenUpKeepsInv(s, to, now);
        MovedKeepsInv(GivenUp(s, to, now).value, to, from);
      } else {
        MovedKeepsInv(s, to, from);
      }
    }
  }

  lemma DeleteKeepsInv(s: System, id: nat, now: int)
    requires Inv(s) && id in s.locks && s.locks[id].phase.Idle?
    ensures Step(s, Delete(id, now)).Some? && Inv(Step(s, Delete(id, now)).value)
  {
    if s.locks[id].owns {
      OwnerGone(s, id, GivenUp(s, id, now), s.locks - {id});
      assert GivenUp(s, id, now).value.locks - {id} == s.locks - {id};
    } else {
      var s' := s.(locks := s.locks - {id});
      assert forall m, i :: Owner(s', m, i) <==> Owner(s, m, i);
    }
  }

  lemma WaitKeepsInv(s: System, id: nat, now: int)
    requires Inv(s) && Usable(s, id) && Permitted(s.locks[id]).Done?
    ensures Step(s, CallWait(id, now)).Some? && Inv(Step(s, CallWait(id, now)).value)
  {
    GivenUpKeepsInv(s, id, now);
    PutKeepsInv(GivenUp(s, id, now).value, id, Slept(s.locks[id], now).value);
  }

  /** No enabled step can go wrong, and every step keeps the invariant. */
  lemma StepKeepsInv(s: System, a: Action)
    requires Inv(s) && Enabled(s, a)
    ensures Step(s, a).Some? && Inv(Step(s, a).value)
  {
    match a
    case New(id) => PutKeepsInv(s, id, Lock(false, None, false, FRESH, Idle));
    case NewDeferred(id, m) => PutKeepsInv(s, id, Lock(false, Some(m), false, FRESH, Idle));
    case NewLocked(id, m, scoped, now) =>
      PutKeepsInv(s, id, Begun(Lock(scoped, Some(m), false, FRESH, Idle), now, Locking).value);
    case CallLock(id, now) =>
      if Validate(s.locks[id]).Done? { PutKeepsInv(s, id, Begun(s.locks[id], now, Locking).value); }
    case Acquire(id) => TakenKeepsInv(s, id, s.locks[id]);
    case CallTryLock(id, got, now) => if got { TakenKeepsInv(s, id, Begun(s.locks[id], now, Idle).value); }
    case CallUnlock(id, now) => if Permitted(s.locks[id]).Done? { GivenUpKeepsInv(s, id, now); }
    case Move(to, from, now) => MoveKeepsInv(s, to, from, now);
    case Delete(id, now) => DeleteKeepsInv(s, id, now);
    case CallWait(id, now) => if Permitted(s.locks[id]).Done? { WaitKeepsInv(s, id, now); }
    case Wake(id, now) => PutKeepsInv(s, id, Begun(s.locks[id], now, Relocking).value);
    case Resume(id, now) => TakenKeepsInv(s, id, s.locks[id].(timer := Restart(now)));
  }

  // ---------- runs ----------

  /** Every step is enabled where it is taken; what is left of the run after a step gone wrong does not matter. */
  predicate ValidRun(s: System, run: seq<Action>)
    decreases |run|
  {
    run == [] || (Enabled(s, run[0])
                  && (Step(s, run[0]).Some? ==> ValidRun(Step(s, run[0]).value, run[1..])))
  }

  function After(s: System, run: seq<Action>): Option<System>
    requires ValidRun(s, run)
    decreases |run|
  {
    if run == [] then Some(s)
    else if Step(s, run[0]).None? then None
    else After(Step(s, run[0]).value, run[1..])
  }

  lemma {:induction false} RunKeepsInv(s: System, run: seq<Action>)
    requires Inv(s) && ValidRun(s, run)
    ensures After(s, run).Some? && Inv(After(s, run).value)
    decreases |run|
  {
    if run != [] {
      StepKeepsInv(s, run[0]);
      RunKeepsInv(Step(s, run[0]).value, run[1..]);
    }
  }

  /**
   Over any run on any number of locks and mutexes no timer assertion fires and no mutex is unlocked wrongly;
   an idle lock with a mutex owns it exactly when its timer runs; no two locks own one mutex; and the releases
   of a mutex are as many as its acquisitions, or one fewer while it is held.
   */
  lemma LocksAreSafe(run: seq<Action>)
    requires ValidRun(START, run)
    ensures After(START, run).Some?
    ensures var s := After(START, run).value;
            && (forall i :: i in s.locks && s.locks[i].mut.Some? && s.locks[i].phase.Idle?
                            ==> (s.locks[i].owns <==> s.locks[i].timer.started))
            && (forall m, i, j :: Owner(s, m, i) && Owner(s, m, j) ==> i == j)
            && (forall m :: s.acquired[m] == s.released[m] + (if m in s.held then 1 else 0))
            && (forall m :: m in s.held <==> exists i :: Owner(s, m, i))
  {
    assert Inv(START);
    RunKeepsInv(START, run);
  }

  /** Once every lock is destroyed, each acquisition has been released exactly once, whatever was moved. */
  lemma EverythingIsReleased(run: seq<Action>)
    requires ValidRun(START, run)
    ensures After(START, run).Some?
    ensures After(START, run).value.locks == map[]
            ==> After(START, run).value.held == {} && After(START, run).value.acquired == After(START, run).value.released
  {
    LocksAreSafe(run);
    var s := After(START, run).value;
    if s.locks == map[] {
      assert forall m :: m !in s.held by {
        forall m ensures m !in s.held { assert !exists i :: Owner(s, m, i); }
      }
      assert forall m :: s.acquired[m] == s.released[m];
    }
  }

  // ---------- what each step does ----------

  /** All locks but the given one stay as they are. */
  ghost predicate OnlyLock(s: System, s': System, id: nat, l: Lock<nat>)
  {
    s'.locks == s.locks[id := l]
  }

  predicate SameMutexes(s: System, s': System)
  {
    s'.held == s.held && s'.acquired == s.acquired && s'.released == s.released
  }

  predicate MutexTaken(s: System, s': System, m: nat)
  {
    m !in s.held && s'.held == s.held + {m} && s'.acquired == s.acquired + multiset{m} && s'.released == s.released
  }

  predicate MutexFreed(s: System, s': System, m: nat)
  {
    m in s.held && s'.held == s.held - {m} && s'.released == s.released + multiset{m} && s'.acquired == s.acquired
  }

  /** lock starts the timer and blocks, unless there is no mutex or it is owned already. */
  lemma LockDoes(s: System, id: nat, now: int)
    requires Inv(s) && Usable(s, id)
    ensures Step(s, CallLock(id, now)).Some?
    ensures var l, s' := s.locks[id], Step(s, CallLock(id, now)).value;
            if l.mut.None? || l.owns then s' == s
            else
              && OnlyLock(s, s', id, l.(timer := l.timer.(started := true, begin := now), phase := Locking))
              && SameMutexes(s, s')
  {
    StepKeepsInv(s, CallLock(id, now));
  }

  /** And ends up owning the mutex as soon as that is free. */
  lemma AcquireDoes(s: System, id: nat)
    requires Inv(s) && Enabled(s, Acquire(id))
    ensures var l, s' := s.locks[id], Step(s, Acquire(id)).value;
            OnlyLock(s, s', id, l.(owns := true, phase := Idle)) && MutexTaken(s, s', l.mut.value)
  {
  }

  lemma TryLockDoes(s: System, id: nat, got: bool, now: int)
    requires Inv(s) && Enabled(s, CallTryLock(id, got, now))
    ensures Step(s, CallTryLock(id, got, now)).Some?
    ensures var l, s' := s.locks[id], Step(s, CallTryLock(id, got, now)).value;
            if got then
              && l.mut.Some? && !l.owns && MutexTaken(s, s', l.mut.value)
              && OnlyLock(s, s', id, l.(owns := true, timer := l.timer.(started := true, begin := now)))
            else s' == s
  {
    StepKeepsInv(s, CallTryLock(id, got, now));
  }

  /** unlock frees the mutex and stops the timer, counting the time since it was started. */
  lemma UnlockDoes(s: System, id: nat, now: int)
    requires Inv(s) && Usable(s, id)
    ensures Step(s, CallUnlock(id, now)).Some?
    ensures var l, s' := s.locks[id], Step(s, CallUnlock(id, now)).value;
            if l.owns then
              && l.mut.Some? && MutexFreed(s, s', l.mut.value)
              && OnlyLock(s, s', id, l.(owns := false,
                            timer := l.timer.(started := false, ticks := l.timer.ticks + (now - l.timer.begin))))
            else s' == s
  {
    StepKeepsInv(s, CallUnlock(id, now));
  }

  /** Moving hands mutex, ownership and timer over; only what the target owned is released. */
  lemma MoveDoes(s: System, to: nat, from: nat, now: int)
    requires Inv(s) && Usable(s, to) && Usable(s, from)
    ensures Step(s, Move(to, from, now)).Some?
    ensures var s' := Step(s, Move(to, from, now)).value;
            if to == from then s' == s
            else
              && s'.locks == s.locks[to := s.locks[from]][from := s.locks[from].(mut := None, owns := false)]
              && (if s.locks[to].owns then s.locks[to].mut.Some? && MutexFreed(s, s', s.locks[to].mut.value)
                  else SameMutexes(s, s'))
  {
    StepKeepsInv(s, Move(to, from, now));
  }

  lemma DeleteDoes(s: System, id: nat, now: int)
    requires Inv(s) && id in s.locks && s.locks[id].phase.Idle?
    ensures Step(s, Delete(id, now)).Some?
    ensures var l, s' := s.locks[id], Step(s, Delete(id, now)).value;
            && s'.locks == s.locks - {id}
            && (if l.owns then l.mut.Some? && MutexFreed(s, s', l.mut.value) else SameMutexes(s, s'))
  {
    StepKeepsInv(s, Delete(id, now));
    if s.locks[id].owns {
      assert GivenUp(s, id, now).value.locks - {id} == s.locks - {id};
    }
  }

  /** wait gives the mutex up, and on the way back blocks for it and then starts the timer afresh. */
  lemma WaitDoes(s: System, id: nat, now: int)
    requires Inv(s) && Usable(s, id)
    ensures Step(s, CallWait(id, now)).Some?
    ensures var l, s' := s.locks[id], Step(s, CallWait(id, now)).value;
            if l.owns then
              && l.mut.Some? && MutexFreed(s, s', l.mut.value)
              && id in s'.locks && s'.locks == s.locks[id := s'.locks[id]]
              && s'.locks[id].mut == l.mut && !s'.locks[id].owns && s'.locks[id].phase == Sleeping
            else s' == s
  {
    StepKeepsInv(s, CallWait(id, now));
    if s.locks[id].owns {
      var s1 := GivenUp(s, id, now).value;
      var l' := Slept(s.locks[id], now).value;
      assert s1.locks[id := l'] == s.locks[id := l'];
    }
  }

  lemma ResumeDoes(s: System, id: nat, now: int)
    requires Inv(s) && Enabled(s, Resume(id, now))
    ensures var l, s' := s.locks[id], Step(s, Resume(id, now)).value;
            && OnlyLock(s, s', id, l.(owns := true, timer := Timer(true, now, 0, 0), phase := Idle))
            && MutexTaken(s, s', l.mut.value)
  {
  }
}
