/**
The token bucket: each pass through the lock refills by the elapsed time and either takes the tokens or
tells its caller how long to sleep.  Times and token counts are real numbers.
*/
module TokenBucket {
  import opened Basics

  datatype Bucket = Bucket(rate: real, capacity: real, tokens: real, updated: real) {
    predicate Valid() {
      rate > 0.0 && capacity > 0.0 && 0.0 <= tokens <= capacity
    }

    function LevelAt(now: real): real {
      var level := tokens + (now - updated) * rate;
      if level < capacity then level else capacity
    }

    function Refilled(now: real): Bucket {
      this.(tokens := LevelAt(now), updated := now)
    }

    function After(a: Attempt): Bucket {
      if a.asked <= 0.0 then this
      else if LevelAt(a.now) >= a.asked then Refilled(a.now).(tokens := LevelAt(a.now) - a.asked)
      else Refilled(a.now)
    }

    function Granted(a: Attempt): real {
      if a.asked > 0.0 && LevelAt(a.now) >= a.asked then a.asked else 0.0
    }

    // How long a refused caller sleeps.
    function Sleep(a: Attempt): real
      requires Valid()
    {
      (a.asked - LevelAt(a.now)) / rate
    }
  }

  // One pass through the lock, by any caller.
  datatype Attempt = Attempt(now: real, asked: real)

  // The clock does not run backwards.
  ghost predicate Ordered(b: Bucket, trace: seq<Attempt>) {
    && (forall i | 0 <= i < |trace| :: b.updated <= trace[i].now)
    && (forall i, j | 0 <= i < j < |trace| :: trace[i].now <= trace[j].now)
  }

  function Run(b: Bucket, trace: seq<Attempt>): Bucket
    decreases |trace|
  {
    if trace == [] then b else Run(b.After(trace[0]), trace[1..])
  }

  function Total(b: Bucket, trace: seq<Attempt>): real
    decreases |trace|
  {
    if trace == [] then 0.0 else b.Granted(trace[0]) + Total(b.After(trace[0]), trace[1..])
  }

  lemma RefillIsBounded(b: Bucket, now: real)
    requires b.Valid() && b.updated <= now
    ensures b.tokens <= b.LevelAt(now) <= b.capacity
  {
    assert (now - b.updated) * b.rate >= 0.0;
  }

  lemma AddSpans(rate: real, t0: real, t1: real, t2: real)
    ensures (t1 - t0) * rate + (t2 - t1) * rate == (t2 - t0) * rate
  {
  }

  // What was granted on the way from b to e, and what is left, came from b's tokens and the inflow.
  ghost predicate Conserved(b: Bucket, granted: real, e: Bucket) {
    && e.rate == b.rate && e.capacity == b.capacity && b.updated <= e.updated
    && granted + e.tokens <= b.tokens + (e.updated - b.updated) * b.rate
  }

  lemma ConservedChain(b: Bucket, g: real, c: Bucket, h: real, e: Bucket)
    requires Conserved(b, g, c) && Conserved(c, h, e)
    ensures Conserved(b, g + h, e)
  {
    AddSpans(b.rate, b.updated, c.updated, e.updated);
  }

  lemma AfterConserves(b: Bucket, a: Attempt)
    requires b.Valid() && b.updated <= a.now
    ensures b.After(a).Valid() && b.After(a).updated <= a.now
    ensures Conserved(b, b.Granted(a), b.After(a))
  {
    RefillIsBounded(b, a.now);
  }

  /** Conservation: what a run grants and what it leaves in the bucket is at most what was there and what
      flowed in; and the level never leaves its bounds. */
  lemma {:induction false} RunConserves(b: Bucket, trace: seq<Attempt>)
    requires b.Valid() && Ordered(b, trace)
    ensures Run(b, trace).Valid() && Conserved(b, Total(b, trace), Run(b, trace))
    ensures trace != [] ==> Run(b, trace).updated <= trace[|trace| - 1].now
    decreases |trace|
  {
    if trace != [] {
      var c, rest := b.After(trace[0]), trace[1..];
      AfterConserves(b, trace[0]);
      RunConserves(c, rest);
      ConservedChain(b, b.Granted(trace[0]), c, Total(c, rest), Run(c, rest));
      assert rest != [] ==> rest[|rest| - 1] == trace[|trace| - 1];
    }
  }

  // Every token is accounted for between b and e.
  ghost predicate Balanced(b: Bucket, granted: real, e: Bucket) {
    e.rate == b.rate && granted + e.tokens == b.tokens + (e.updated - b.updated) * b.rate
  }

  // Even untouched the bucket would not be full by then.
  ghost predicate Roomy(b: Bucket, end: real) {
    b.tokens + (end - b.updated) * b.rate <= b.capacity
  }

  lemma BalancedChain(b: Bucket, g: real, c: Bucket, h: real, e: Bucket)
    requires Balanced(b, g, c) && Balanced(c, h, e)
    ensures Balanced(b, g + h, e)
  {
    AddSpans(b.rate, b.updated, c.updated, e.updated);
  }

  lemma StepLosesNothing(b: Bucket, a: Attempt, end: real)
    requires b.Valid() && b.updated <= a.now <= end && a.asked > 0.0 && Roomy(b, end)
    ensures Balanced(b, b.Granted(a), b.After(a)) && Roomy(b.After(a), end)
  {
    WiderSpan(b.rate, a.now - b.updated, end - b.updated);
    AddSpans(b.rate, b.updated, a.now, end);
  }

  /** Nothing is lost: while the inflow cannot fill the bucket, what was granted and what is left are
      exactly what was there and what flowed in. */
  lemma {:induction false} RunLosesNothing(b: Bucket, trace: seq<Attempt>, end: real)
    requires b.Valid() && Ordered(b, trace) && Roomy(b, end)
    requires forall a | a in trace :: a.now <= end && a.asked > 0.0
    ensures Balanced(b, Total(b, trace), Run(b, trace))
    decreases |trace|
  {
    if trace != [] {
      var c, rest := b.After(trace[0]), trace[1..];
      assert trace[0] in trace;
      StepLosesNothing(b, trace[0], end);
      AfterConserves(b, trace[0]);
      RunLosesNothing(c, rest, end);
      BalancedChain(b, b.Granted(trace[0]), c, Total(c, rest), Run(c, rest));
    }
  }

  // No more than a full bucket and the inflow of that much time.
  ghost predicate Bounded(b: Bucket, granted: real, time: real) {
    granted <= b.capacity + time * b.rate
  }

  lemma WiderSpan(rate: real, a: real, b: real)
    requires rate > 0.0 && a <= b
    ensures a * rate <= b * rate
  {
  }

  /** The bound: between its first and its last attempt any stretch of a run grants at most the capacity
      and the rate times its length, whatever came before it. */
  lemma GrantsAreBounded(b: Bucket, before: seq<Attempt>, window: seq<Attempt>)
    requires b.Valid() && Ordered(b, before + window) && window != []
    ensures Bounded(b, Total(Run(b, before), window), window[|window| - 1].now - window[0].now)
  {
    SplitOrdered(b, before, window);
    WindowIsBounded(Run(b, before), window);
    SameBound(Run(b, before), b, Total(Run(b, before), window), window[|window| - 1].now - window[0].now);
  }

  lemma SplitOrdered(b: Bucket, before: seq<Attempt>, window: seq<Attempt>)
    requires b.Valid() && Ordered(b, before + window)
    ensures var c := Run(b, before);
            c.Valid() && c.rate == b.rate && c.capacity == b.capacity && Ordered(c, window)
  {
    var whole := before + window;
    assert forall i | 0 <= i < |before| :: before[i] == whole[i];
    assert forall i | 0 <= i < |window| :: window[i] == whole[|before| + i];
    RunConserves(b, before);
  }

  lemma SameBound(b: Bucket, c: Bucket, granted: real, time: real)
    requires Bounded(b, granted, time) && b.rate == c.rate && b.capacity == c.capacity
    ensures Bounded(c, granted, time)
  {
  }

  lemma LastSpan(b: Bucket, start: real, granted: real, e: Bucket, end: real)
    requires b.Valid() && b.updated <= start && e.Valid()
    requires Conserved(b.Refilled(start), granted, e) && e.updated <= end
    ensures Bounded(b, granted, end - start)
  {
    RefillIsBounded(b, start);
    WiderSpan(b.rate, e.updated - start, end - start);
  }

  lemma WindowIsBounded(b: Bucket, window: seq<Attempt>)
    requires b.Valid() && Ordered(b, window) && window != []
    ensures Bounded(b, Total(b, window), window[|window| - 1].now - window[0].now)
  {
    var full := b.Refilled(window[0].now);
    RefillIsBounded(b, window[0].now);
    SameFromRefill(b, window);
    RunConserves(full, window);
    LastSpan(b, window[0].now, Total(full, window), Run(full, window), window[|window| - 1].now);
  }

  // Reading the clock early changes no grant.
  lemma {:induction false} SameFromRefill(b: Bucket, window: seq<Attempt>)
    requires b.Valid() && window != [] && Ordered(b, window)
    ensures Total(b.Refilled(window[0].now), window) == Total(b, window)
    decreases |window|
  {
    RefillTwice(b, window[0].now, window[0]);
    if window[0].asked <= 0.0 && |window| > 1 {
      var rest := window[1..];
      RefillIsBounded(b, window[0].now);
      LaterRefill(b, window[0].now, rest);
    }
  }

  lemma RefillTwice(b: Bucket, t: real, a: Attempt)
    requires b.Valid() && b.updated <= t <= a.now
    ensures b.Refilled(t).LevelAt(a.now) == b.LevelAt(a.now)
    ensures a.asked > 0.0 ==> b.Refilled(t).After(a) == b.After(a)
    ensures b.Refilled(t).Granted(a) == b.Granted(a)
  {
    AddSpans(b.rate, b.updated, t, a.now);
    assert (a.now - t) * b.rate >= 0.0;
  }

  lemma {:induction false} LaterRefill(b: Bucket, t: real, trace: seq<Attempt>)
    requires b.Valid() && b.updated <= t && Ordered(b.Refilled(t), trace)
    ensures Total(b.Refilled(t), trace) == Total(b, trace)
  {
    if trace != [] {
      RefillTwice(b, t, trace[0]);
      if trace[0].asked <= 0.0 {
        LaterRefill(b, t, trace[1..]);
      }
    }
  }

  // A span brings in what is missing exactly when it is no shorter than the quotient.
  lemma FillingTime(rate: real, missing: real, span: real)
    requires rate > 0.0 && missing > 0.0
    ensures missing / rate > 0.0
    ensures span * rate >= missing <==> span >= missing / rate
  {
    var sleep := missing / rate;
    assert sleep * rate == missing;
    assert (span - sleep) * rate == span * rate - sleep * rate;
    if span >= sleep {
      assert (span - sleep) * rate >= 0.0;
    } else {
      assert (sleep - span) * rate > 0.0;
    }
  }

  /** After a refusal, and with no rival in between, a retry is granted exactly when the caller has slept
      as long as it was told and asks for no more than the capacity. */
  lemma SleepIsExact(b: Bucket, a: Attempt, later: real)
    requires b.Valid() && b.updated <= a.now <= later
    requires a.asked > 0.0 && b.Granted(a) == 0.0
    ensures b.Sleep(a) > 0.0
    ensures b.After(a).Granted(Attempt(later, a.asked)) == a.asked <==>
            a.asked <= b.capacity && later >= a.now + b.Sleep(a)
  {
    FillingTime(b.rate, a.asked - b.LevelAt(a.now), later - a.now);
    assert b.After(a) == b.Refilled(a.now);
  }

  // More than the capacity is never granted, in any run: such a caller sleeps and retries for ever.
  lemma TooMuchIsNeverGranted(b: Bucket, before: seq<Attempt>, a: Attempt)
    requires b.Valid() && Ordered(b, before + [a]) && a.asked > b.capacity
    ensures Run(b, before).Granted(a) == 0.0
  {
    SplitOrdered(b, before, [a]);
    assert [a][0] == a;
    RefillIsBounded(Run(b, before), a.now);
  }

  class AsyncTokenBucket {
    const rate: real
    const capacity: real
    var tokens: real
    var updated: real

    ghost function View(): Bucket
      reads this
    {
      Bucket(rate, capacity, tokens, updated)
    }

    constructor (rate: real, capacity: real, now: real)
      requires rate > 0.0 && capacity > 0.0
      ensures View() == Bucket(rate, capacity, capacity, now) && View().Valid()
    {
      this.rate, this.capacity, tokens, updated := rate, capacity, capacity, now;
    }

    // The locked part of one pass: None when granted, else how long to sleep.
    method Pass(asked: real, now: real) returns (wait: Option<real>)
      requires View().Valid() && updated <= now && asked > 0.0
      modifies this
      ensures View() == old(View()).After(Attempt(now, asked)) && View().Valid()
      ensures old(View()).Granted(Attempt(now, asked)) == if wait.None? then asked else 0.0
      ensures wait.Some? ==> wait.value == old(View()).Sleep(Attempt(now, asked))
    {
      AfterConserves(View(), Attempt(now, asked));
      var elapsed := now - updated;
      updated := now;
      tokens := if tokens + elapsed * rate < capacity then tokens + elapsed * rate else capacity;
      if tokens >= asked {
        tokens := tokens - asked;
        return None;
      }
      return Some((asked - tokens) / rate);
    }

    /** Acquiring with no rival: readings are the clock at each pass, and oversleeps what each sleep took
        beyond the time asked for. */
    method Acquire(asked: real, start: real, oversleeps: seq<real>) returns (granted: bool, passes: nat)
      requires View().Valid() && updated <= start
      requires forall d | d in oversleeps :: d >= 0.0
      modifies this
      ensures View().Valid()
      ensures asked <= 0.0 ==> granted && passes == 0 && View() == old(View())
      ensures asked > capacity ==> !granted && passes == |oversleeps| + 1
      ensures 0.0 < asked <= capacity && |oversleeps| > 0 ==> granted && passes <= 2
    {
      if asked <= 0.0 {
        return true, 0;
      }
      var now := start;
      passes := 0;
      while true
        invariant View().Valid() && updated <= now && passes <= |oversleeps|
        invariant passes > 0 ==> tokens < asked && now >= updated + (asked - tokens) / rate
        invariant 0.0 < asked <= capacity ==> passes <= 1
        decreases |oversleeps| - passes
      {
        ghost var before := View();
        if passes > 0 {
          SleepSuffices(before, asked, now);
        }
        RefillIsBounded(before, now);
        var wait := Pass(asked, now);
        passes := passes + 1;
        if wait.None? {
          return true, passes;
        }
        if passes > |oversleeps| {
          return false, passes;
        }
        assert wait.value > 0.0 && oversleeps[passes - 1] in oversleeps;
        now := now + wait.value + oversleeps[passes - 1];
      }
    }
  }

  lemma SleepSuffices(b: Bucket, asked: real, now: real)
    requires b.Valid() && b.tokens < asked && now >= b.updated + (asked - b.tokens) / b.rate
    ensures asked <= b.capacity ==> b.LevelAt(now) >= asked
  {
    var sleep := (asked - b.tokens) / b.rate;
    assert sleep * b.rate == asked - b.tokens;
    WiderSpan(b.rate, sleep, now - b.updated);
  }
}
