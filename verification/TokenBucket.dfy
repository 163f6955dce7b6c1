/**
 The token bucket of rate_limiting.cpp. Times are nanoseconds of the steady clock, read twice per call as
 in the source; the refill is computed exactly instead of in floating point.
 */
module TokenBucket {

  const SENTINEL: nat := 1_000_000_000 // stands for "unlimited"
  const SECOND: nat := 1_000_000_000   // nanoseconds

  datatype Bucket = Bucket(max: nat, rate: nat, current: nat, smallest: nat, last: int)

  function Min(x: nat, y: nat): nat
  {
    if x <= y then x else y
  }

  /** The tokens that `elapsed` nanoseconds are worth. */
  function Earned(rate: nat, elapsed: nat): (t: nat)
    ensures t * SECOND <= rate * elapsed
  {
    rate * elapsed / SECOND
  }

  function Refilled(b: Bucket, now: int, later: int): Bucket
    requires b.last <= now
  {
    b.(current := Min(b.current + Earned(b.rate, now - b.last), b.max), last := later)
  }

  /** try_consume: the bucket afterwards and the answer. */
  function Consumed(b: Bucket, tokens: nat, now: int, later: int): (Bucket, bool)
    requires b.last <= now
  {
    var r := Refilled(b, now, later);
    var left := if tokens <= r.current then r.current - tokens else if tokens == SENTINEL then 0 else r.current;
    (r.(current := left, smallest := Min(r.smallest, left)), tokens <= r.current || b.rate == SENTINEL)
  }

  /** The bucket after reset; a zero asks for no limit. */
  function Fresh(max: nat, rate: nat, now: int): Bucket
  {
    if max == 0 || rate == 0 then Bucket(SENTINEL, SENTINEL, SENTINEL, SENTINEL, now)
    else Bucket(max, rate, max, max, now)
  }

  class TokenBucket {
    var maxTokenCount: nat
    var refillRate: nat
    var currentSize: nat
    var smallestSize: nat
    var lastRefill: int

    ghost function View(): Bucket
      reads this
    {
      Bucket(maxTokenCount, refillRate, currentSize, smallestSize, lastRefill)
    }

    constructor (max: nat, rate: nat, now: int)
      ensures View() == Fresh(max, rate, now) && Levels(View())
    {
      new;
      Reset(max, rate, now);
    }

    method Reset(max: nat, rate: nat, now: int)
      modifies this
      ensures View() == Fresh(max, rate, now) && Levels(View())
    {
      var m, r := max, rate;
      if m == 0 || r == 0 {
        m, r := SENTINEL, SENTINEL;
      }
      maxTokenCount, smallestSize, currentSize := m, m, m;
      refillRate := r;
      lastRefill := now;
    }

    method Refill(now: int, later: int)
      requires lastRefill <= now
      modifies this
      ensures View() == Refilled(old(View()), now, later)
    {
      var tokensToAdd := Earned(refillRate, now - lastRefill);
      currentSize := Min(currentSize + tokensToAdd, maxTokenCount);
      lastRefill := later;
    }

    method TryConsume(tokens: nat, now: int, later: int) returns (ok: bool)
      requires lastRefill <= now
      modifies this
      ensures (View(), ok) == Consumed(old(View()), tokens, now, later)
      ensures ok <==> refillRate == SENTINEL || Affordable(old(View()), Call(tokens, now, later))
      ensures Levels(old(View())) ==> Levels(View())
    {
      GrantedExactly(View(), Call(tokens, now, later));
      Refill(now, later);
      var possible := currentSize >= tokens;
      if possible {
        currentSize := currentSize - tokens;
      } else if tokens == SENTINEL {
        currentSize := 0;
      }
      smallestSize := Min(smallestSize, currentSize);
      ok := possible || refillRate == SENTINEL;
    }

    method LargestBurst() returns (burst: nat)
      requires Levels(View())
      ensures burst == maxTokenCount - smallestSize
    {
      burst := maxTokenCount - smallestSize;
    }
  }

  // ---------- runs ----------

  predicate Levels(b: Bucket)
  {
    b.smallest <= b.current <= b.max
  }

  datatype Call = Call(tokens: nat, now: int, later: int)

  /** The clock does not run backwards. */
  predicate Timed(start: int, calls: seq<Call>)
    decreases |calls|
  {
    calls == [] || (start <= calls[0].now <= calls[0].later && Timed(calls[0].later, calls[1..]))
  }

  function EndTime(start: int, calls: seq<Call>): int
    decreases |calls|
  {
    if calls == [] then start else EndTime(calls[0].later, calls[1..])
  }

  function After(b: Bucket, calls: seq<Call>): (r: Bucket)
    requires Timed(b.last, calls)
    ensures Levels(b) ==> Levels(r)
    ensures r.max == b.max && r.rate == b.rate && r.last == EndTime(b.last, calls)
    decreases |calls|
  {
    if calls == [] then b
    else After(Consumed(b, calls[0].tokens, calls[0].now, calls[0].later).0, calls[1..])
  }

  /** The tokens granted by a run of calls. */
  function Granted(b: Bucket, calls: seq<Call>): nat
    requires Timed(b.last, calls)
    decreases |calls|
  {
    if calls == [] then 0
    else
      var c := calls[0];
      (if Consumed(b, c.tokens, c.now, c.later).1 then c.tokens else 0)
      + Granted(Consumed(b, c.tokens, c.now, c.later).0, calls[1..])
  }

  function LastNow(calls: seq<Call>): int
    requires calls != []
  {
    calls[|calls| - 1].now
  }

  lemma {:induction false} LastNowAfter(start: int, calls: seq<Call>)
    requires calls != [] && Timed(start, calls)
    ensures calls[0].now <= LastNow(calls)
    ensures |calls| > 1 ==> calls[0].later <= LastNow(calls)
    decreases |calls|
  {
    if |calls| > 1 {
      LastNowAfter(calls[0].later, calls[1..]);
      assert LastNow(calls[1..]) == LastNow(calls);
    }
  }

  lemma Scale(rate: nat, x: int, y: int)
    requires x <= y
    ensures rate * x <= rate * y
  {
  }

  lemma ScaleSum(rate: nat, x: int, y: int)
    ensures rate * (x + y) == rate * x + rate * y
  {
  }

  /** One call takes no more than the level and what the time since the last refill earned. */
  lemma OneCall(b: Bucket, c: Call)
    requires b.rate != SENTINEL && b.last <= c.now
    ensures var (b', ok) := Consumed(b, c.tokens, c.now, c.later);
            (if ok then c.tokens else 0) * SECOND + b'.current * SECOND <= b.current * SECOND + b.rate * (c.now - b.last)
  {
  }

  /** From any level: what is granted was there or has been earned since the last refill. */
  lemma {:induction false} GrantedFromLevel(b: Bucket, calls: seq<Call>)
    requires b.rate != SENTINEL && calls != [] && Timed(b.last, calls)
    ensures Granted(b, calls) * SECOND <= b.current * SECOND + b.rate * (LastNow(calls) - b.last)
    decreases |calls|
  {
    var c := calls[0];
    var b' := Consumed(b, c.tokens, c.now, c.later).0;
    OneCall(b, c);
    LastNowAfter(b.last, calls);
    if |calls| == 1 {
      assert calls[1..] == [];
    } else {
      GrantedFromLevel(b', calls[1..]);
      assert LastNow(calls[1..]) == LastNow(calls);
      Scale(b.rate, LastNow(calls) - c.later, LastNow(calls) - c.now);
      ScaleSum(b.rate, LastNow(calls) - c.now, c.now - b.last);
    }
  }

  /** One call takes no more than what a full bucket holds, counting what it leaves. */
  lemma FirstCall(b: Bucket, c: Call)
    requires Levels(b) && b.rate != SENTINEL && b.last <= c.now
    ensures var (b', ok) := Consumed(b, c.tokens, c.now, c.later);
            (if ok then c.tokens else 0) * SECOND + b'.current * SECOND <= b.max * SECOND
  {
  }

  /** A run of calls grants at most one full bucket and what the time from its first to its last call earns. */
  lemma BurstBound(b: Bucket, calls: seq<Call>)
    requires Levels(b) && b.rate != SENTINEL && calls != [] && Timed(b.last, calls)
    ensures Granted(b, calls) * SECOND <= b.max * SECOND + b.rate * (LastNow(calls) - calls[0].now)
  {
    var c := calls[0];
    var b' := Consumed(b, c.tokens, c.now, c.later).0;
    FirstCall(b, c);
    if |calls| == 1 {
      assert calls[1..] == [];
    } else {
      GrantedFromLevel(b', calls[1..]);
      assert LastNow(calls[1..]) == LastNow(calls);
      Scale(b.rate, LastNow(calls) - c.later, LastNow(calls) - c.now);
    }
  }

  lemma {:induction false} TimedSplit(start: int, calls: seq<Call>, i: nat)
    requires i <= |calls| && Timed(start, calls)
    ensures Timed(start, calls[..i]) && Timed(EndTime(start, calls[..i]), calls[i..])
    decreases |calls|
  {
    if i == 0 {
      assert calls[..i] == [] && calls[i..] == calls;
    } else {
      var front, rest := calls[..i], calls[1..];
      TimedSplit(calls[0].later, rest, i - 1);
      assert front[0] == calls[0] && front[1..] == rest[..i - 1];
      assert rest[i - 1..] == calls[i..];
    }
  }

  lemma TimedWindow(start: int, calls: seq<Call>, i: nat, j: nat)
    requires i <= j <= |calls| && Timed(start, calls)
    ensures Timed(start, calls[..i]) && Timed(EndTime(start, calls[..i]), calls[i..j])
  {
    TimedSplit(start, calls, i);
    TimedSplit(EndTime(start, calls[..i]), calls[i..], j - i);
    assert calls[i..][..j - i] == calls[i..j];
  }

  /** In any run after a reset, calls i to j - 1 grant at most a full bucket and what the time between them earns. */
  lemma WindowBound(max: nat, rate: nat, now: int, calls: seq<Call>, i: nat, j: nat)
    requires Fresh(max, rate, now).rate != SENTINEL && i < j <= |calls| && Timed(now, calls)
    ensures Timed(now, calls[..i]) && Timed(After(Fresh(max, rate, now), calls[..i]).last, calls[i..j])
    ensures Granted(After(Fresh(max, rate, now), calls[..i]), calls[i..j]) * SECOND
            <= max * SECOND + rate * (calls[j - 1].now - calls[i].now)
  {
    TimedWindow(now, calls, i, j);
    var b := After(Fresh(max, rate, now), calls[..i]);
    BurstBound(b, calls[i..j]);
    assert LastNow(calls[i..j]) == calls[j - 1].now;
  }

  /** The tokens a run of calls asks for. */
  function Asked(calls: seq<Call>): nat
    decreases |calls|
  {
    if calls == [] then 0 else calls[0].tokens + Asked(calls[1..])
  }

  /** A bucket reset without a limit, or at the sentinel rate, grants all that any run asks for. */
  lemma {:induction false} SentinelGrantsAll(b: Bucket, calls: seq<Call>)
    requires b.rate == SENTINEL && Timed(b.last, calls)
    ensures Granted(b, calls) == Asked(calls)
    decreases |calls|
  {
    if calls != [] {
      SentinelGrantsAll(Consumed(b, calls[0].tokens, calls[0].now, calls[0].later).0, calls[1..]);
    }
  }

  // ---------- the promised rate, and what falls short of it ----------

  /** What a span of time is worth at a rate, in tokens times SECOND. */
  function Worth(rate: nat, span: int): nat
    requires span >= 0
  {
    Scale(rate, 0, span);
    rate * span
  }

  /**
   What one call loses: the fraction of a token the refill drops, what goes over the brim, the time between
   the two readings of the clock, and what a call for the sentinel amount empties out.
   */
  function Loss(b: Bucket, c: Call): nat
    requires b.last <= c.now <= c.later
  {
    var r := Refilled(b, c.now, c.later);
    Worth(b.rate, c.now - b.last) % SECOND
    + Overflow(b, c.now) * SECOND
    + Worth(b.rate, c.later - c.now)
    + if c.tokens > r.current && c.tokens == SENTINEL then r.current * SECOND else 0
  }

  function Overflow(b: Bucket, now: int): nat
    requires b.last <= now
  {
    var level := b.current + Earned(b.rate, now - b.last);
    if level > b.max then level - b.max else 0
  }

  function Losses(b: Bucket, calls: seq<Call>): nat
    requires Timed(b.last, calls)
    decreases |calls|
  {
    if calls == [] then 0
    else
      var c := calls[0];
      Loss(b, c) + Losses(Consumed(b, c.tokens, c.now, c.later).0, calls[1..])
  }

  /** One call: what it grants, leaves and loses is what was there and what the time was worth. */
  lemma CallBalances(b: Bucket, c: Call)
    requires b.rate != SENTINEL && b.last <= c.now <= c.later
    ensures var (b', ok) := Consumed(b, c.tokens, c.now, c.later);
            (if ok then c.tokens else 0) * SECOND + b'.current * SECOND + Loss(b, c)
            == b.current * SECOND + Worth(b.rate, c.later - b.last)
  {
    ScaleSum(b.rate, c.now - b.last, c.later - c.now);
    var worth := Worth(b.rate, c.now - b.last);
    assert worth == worth / SECOND * SECOND + worth % SECOND;
  }

  lemma {:induction false} EndsLater(start: int, calls: seq<Call>)
    requires Timed(start, calls)
    ensures EndTime(start, calls) >= start
    decreases |calls|
  {
    if calls != [] { EndsLater(calls[0].later, calls[1..]); }
  }

  /** Over every run nothing is unaccounted for. */
  lemma {:induction false} RunBalances(b: Bucket, calls: seq<Call>)
    requires b.rate != SENTINEL && Timed(b.last, calls)
    ensures EndTime(b.last, calls) >= b.last
    ensures Granted(b, calls) * SECOND + After(b, calls).current * SECOND + Losses(b, calls)
         == b.current * SECOND + Worth(b.rate, EndTime(b.last, calls) - b.last)
    decreases |calls|
  {
    if calls != [] {
      var c := calls[0];
      var b' := Consumed(b, c.tokens, c.now, c.later).0;
      CallBalances(b, c);
      RunBalances(b', calls[1..]);
      EndsLater(c.later, calls[1..]);
      ScaleSum(b.rate, c.later - b.last, EndTime(b.last, calls) - c.later);
    }
  }

  /** So a run keeps the promised tokens per second exactly if no call of it loses anything. */
  lemma PromisedRateExactly(b: Bucket, calls: seq<Call>)
    requires b.rate != SENTINEL && Timed(b.last, calls)
    ensures EndTime(b.last, calls) >= b.last
    ensures (Granted(b, calls) + After(b, calls).current) * SECOND
            == b.current * SECOND + Worth(b.rate, EndTime(b.last, calls) - b.last)
       <==> Losses(b, calls) == 0
  {
    RunBalances(b, calls);
  }

  // ---------- exactly which calls are granted ----------

  /** The bucket holds, or the time since the last refill has earned it, enough for the call. */
  predicate Affordable(b: Bucket, c: Call)
    requires b.last <= c.now
  {
    c.tokens <= b.max && c.tokens * SECOND <= b.current * SECOND + Worth(b.rate, c.now - b.last)
  }

  /** A call is granted exactly if the bucket is unlimited or can afford it; a granted call takes its tokens. */
  lemma GrantedExactly(b: Bucket, c: Call)
    requires b.last <= c.now
    ensures var (b', ok) := Consumed(b, c.tokens, c.now, c.later);
            && (ok <==> b.rate == SENTINEL || Affordable(b, c))
            && (Affordable(b, c) ==>
                  b'.current == Min(b.current + Worth(b.rate, c.now - b.last) / SECOND, b.max) - c.tokens)
            && (!Affordable(b, c) && c.tokens != SENTINEL ==>
                  b'.current == Min(b.current + Worth(b.rate, c.now - b.last) / SECOND, b.max))
            && (!Affordable(b, c) && c.tokens == SENTINEL ==> b'.current == 0)
            && b'.max == b.max && b'.rate == b.rate && b'.last == c.later
  {
  }

  /** A call after others asks for at most a full bucket, and it, the grants and the losses so far are covered. */
  predicate Covered(b: Bucket, before: seq<Call>, c: Call)
    requires Timed(b.last, before) && b.last <= c.now
  {
    && c.tokens <= b.max
    && (Granted(b, before) + c.tokens) * SECOND + Losses(b, before)
       <= b.current * SECOND + Worth(b.rate, c.now - b.last)
  }

  lemma LevelPaysExactly(b: Bucket, before: seq<Call>, c: Call)
    requires b.rate != SENTINEL && Timed(b.last, before) && EndTime(b.last, before) <= c.now && b.last <= c.now
    ensures Affordable(After(b, before), c) <==> Covered(b, before, c)
  {
    RunBalances(b, before);
    BalancePays(b, After(b, before), c, Granted(b, before), Losses(b, before));
  }

  lemma BalancePays(b: Bucket, b': Bucket, c: Call, granted: nat, lost: nat)
    requires b'.max == b.max && b'.rate == b.rate && b.last <= b'.last <= c.now
    requires granted * SECOND + b'.current * SECOND + lost == b.current * SECOND + Worth(b.rate, b'.last - b.last)
    ensures Affordable(b', c)
       <==> c.tokens <= b.max && (granted + c.tokens) * SECOND + lost <= b.current * SECOND + Worth(b.rate, c.now - b.last)
  {
    WorthSum(b.rate, b'.last - b.last, c.now - b'.last, c.now - b.last);
    Pays(granted, c.tokens, lost, b.current, b'.current, Worth(b.rate, b'.last - b.last), Worth(b.rate, c.now - b'.last));
  }

  lemma WorthSum(rate: nat, x: nat, y: nat, z: nat)
    requires x + y == z
    ensures Worth(rate, z) == Worth(rate, x) + Worth(rate, y)
  {
    ScaleSum(rate, x, y);
  }

  lemma Pays(granted: nat, tokens: nat, lost: nat, first: nat, level: nat, before: nat, since: nat)
    requires granted * SECOND + level * SECOND + lost == first * SECOND + before
    ensures tokens * SECOND <= level * SECOND + since
       <==> (granted + tokens) * SECOND + lost <= first * SECOND + (before + since)
  {
  }

  /**
   Over every run: a call is granted exactly if it asks for at most a full bucket, and it and the grants
   before it, with what was lost, are covered by the first level and the time since.
   */
  lemma RunGrantsExactly(b: Bucket, calls: seq<Call>, i: nat)
    requires b.rate != SENTINEL && i < |calls| && Timed(b.last, calls)
    ensures Timed(b.last, calls[..i]) && EndTime(b.last, calls[..i]) <= calls[i].now && b.last <= calls[i].now
    ensures Consumed(After(b, calls[..i]), calls[i].tokens, calls[i].now, calls[i].later).1
       <==> Covered(b, calls[..i], calls[i])
  {
    TimedSplit(b.last, calls, i);
    assert calls[i..][0] == calls[i];
    EndsLater(b.last, calls[..i]);
    GrantedExactly(After(b, calls[..i]), calls[i]);
    LevelPaysExactly(b, calls[..i], calls[i]);
  }

  /** A reset bucket is full; a zero count or rate makes it unlimited, and then it grants everything. */
  lemma ResetExactly(max: nat, rate: nat, now: int, calls: seq<Call>)
    ensures var b := Fresh(max, rate, now);
            && b.current == b.smallest == b.max && b.last == now
            && (max > 0 && rate > 0 ==> b.max == max && b.rate == rate)
            && (max == 0 || rate == 0 ==>
                  b.max == SENTINEL && b.rate == SENTINEL
                  && (Timed(now, calls) ==> Granted(b, calls) == Asked(calls)))
  {
    if Timed(now, calls) && (max == 0 || rate == 0) {
      SentinelGrantsAll(Fresh(max, rate, now), calls);
    }
  }

  // ---------- polling faster than tokens are earned ----------

  /** Every call comes before the time since the previous one has earned a token. */
  predicate Hasty(rate: nat, last: int, calls: seq<Call>)
    decreases |calls|
  {
    calls == [] || (rate * (calls[0].now - last) < SECOND && Hasty(rate, calls[0].later, calls[1..]))
  }

  lemma NothingEarned(rate: nat, elapsed: int)
    requires 0 <= elapsed
    ensures Earned(rate, elapsed) == 0 <==> rate * elapsed < SECOND
  {
    Scale(rate, 0, elapsed);
  }

  /** The tokens that the refills of a run add up to, before the brim. */
  function EarnedInAll(rate: nat, last: int, calls: seq<Call>): nat
    requires Timed(last, calls)
    decreases |calls|
  {
    if calls == [] then 0
    else Earned(rate, calls[0].now - last) + EarnedInAll(rate, calls[0].later, calls[1..])
  }

  /** Each refill drops the fraction of a token and moves the clock: a run earns nothing exactly if it is hasty. */
  lemma {:induction false} HastyExactly(rate: nat, last: int, calls: seq<Call>)
    requires Timed(last, calls)
    ensures EarnedInAll(rate, last, calls) == 0 <==> Hasty(rate, last, calls)
    decreases |calls|
  {
    if calls != [] {
      NothingEarned(rate, calls[0].now - last);
      HastyExactly(rate, calls[0].later, calls[1..]);
    }
  }

  /** Over a whole hasty run a bucket grants no more than it held, however long the run lasts. */
  lemma {:induction false} HastyCallsNeverRefill(b: Bucket, calls: seq<Call>)
    requires b.rate != SENTINEL && Timed(b.last, calls) && Hasty(b.rate, b.last, calls)
    ensures Granted(b, calls) + After(b, calls).current <= b.current
    decreases |calls|
  {
    if calls != [] {
      NothingEarned(b.rate, calls[0].now - b.last);
      HastyCallsNeverRefill(Consumed(b, calls[0].tokens, calls[0].now, calls[0].later).0, calls[1..]);
    }
  }

  /** One token per second, asked for twice a second: the second call fails, and so does every later one. */
  lemma HastyWitness(start: int)
    ensures var b := Bucket(1, 1, 1, 1, start);
            var calls := [Call(1, start, start), Call(1, start + SECOND / 2, start + SECOND / 2),
                          Call(1, start + SECOND, start + SECOND)];
            Timed(start, calls) && Hasty(1, start, calls) && Granted(b, calls) <= 1
  {
    var half := SECOND / 2;
    var b := Bucket(1, 1, 1, 1, start);
    var c1, c2, c3 := Call(1, start, start), Call(1, start + half, start + half), Call(1, start + SECOND, start + SECOND);
    assert [c1, c2, c3][1..] == [c2, c3] && [c2, c3][1..] == [c3] && [c3][1..] == [];
    assert Timed(c2.later, [c3]) && Hasty(1, c2.later, [c3]);
    assert Timed(c1.later, [c2, c3]) && Hasty(1, c1.later, [c2, c3]);
    HastyCallsNeverRefill(b, [c1, c2, c3]);
  }

  /** The lowest level seen in a run of calls, the first level included. */
  function Lowest(b: Bucket, calls: seq<Call>): nat
    requires Timed(b.last, calls)
    decreases |calls|
  {
    if calls == [] then b.current
    else Min(b.current, Lowest(Consumed(b, calls[0].tokens, calls[0].now, calls[0].later).0, calls[1..]))
  }

  lemma {:induction false} SmallestIsLowest(b: Bucket, calls: seq<Call>)
    requires Levels(b) && Timed(b.last, calls)
    ensures After(b, calls).smallest == Min(b.smallest, Lowest(b, calls))
    decreases |calls|
  {
    if calls != [] {
      SmallestIsLowest(Consumed(b, calls[0].tokens, calls[0].now, calls[0].later).0, calls[1..]);
    }
  }

  /** largest_burst is the depth of the lowest level seen since the reset. */
  lemma LargestBurstIsDepth(max: nat, rate: nat, now: int, calls: seq<Call>)
    requires Timed(now, calls)
    ensures var b := Fresh(max, rate, now);
            && Levels(After(b, calls))
            && After(b, calls).max - After(b, calls).smallest == b.max - Lowest(b, calls)
  {
    SmallestIsLowest(Fresh(max, rate, now), calls);
  }
}
