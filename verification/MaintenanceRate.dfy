/**
How often the maintenance scheduler submits: the rate bound over all runs, the exact condition under
which a resume that could not read the clock keeps it, and what happens otherwise.
*/
module MaintenanceRate {
  import opened Basics
  import opened MaintenanceScan

  function SubmissionTimes(h: seq<Mark>): seq<real> {
    if h == [] then []
    else
      var last := h[|h| - 1];
      SubmissionTimes(h[..|h| - 1]) + if last.Submitted? then [last.time] else []
  }

  lemma TimesAppend(h: seq<Mark>, m: Mark)
    ensures SubmissionTimes(h + [m]) == SubmissionTimes(h) + if m.Submitted? then [m.time] else []
  {
    assert (h + [m])[..|h|] == h;
  }

  lemma SubmittedTimes(h: seq<Mark>, now: real, c: Candidate)
    ensures SubmissionTimes(h + [FoundIdle] + [Submitted(now, c)]) == SubmissionTimes(h) + [now]
  {
    TimesAppend(h, FoundIdle);
    TimesAppend(h + [FoundIdle], Submitted(now, c));
  }

  // ---------------------------------------------------------------- the bound

  // The submissions in the half-open window of one interval that begins at a.
  function InWindow(cfg: Config, times: seq<real>, a: real): set<int> {
    set i | 0 <= i < |times| && a <= times[i] < a + cfg.interval
  }

  ghost predicate Gaps(cfg: Config, times: seq<real>) {
    forall i, j | 0 <= i < j < |times| :: times[j] - times[i] >= cfg.MinGap()
  }

  /** What is promised: no window of one interval holds more than the budget of requests, and two requests
      are never closer than the spacing or, when that is shorter, the interval. */
  ghost predicate Bounded(cfg: Config, times: seq<real>) {
    (forall a :: |InWindow(cfg, times, a)| <= cfg.maxRequests) && Gaps(cfg, times)
  }

  ghost predicate Spaced(cfg: Config, times: seq<real>) {
    && Gaps(cfg, times)
    && (forall i, j | 0 <= i && i + cfg.maxRequests <= j < |times| :: times[j] - times[i] >= cfg.interval)
  }

  lemma WindowHolds(cfg: Config, times: seq<real>, a: real)
    requires Spaced(cfg, times)
    ensures |InWindow(cfg, times, a)| <= cfg.maxRequests
  {
    var w := InWindow(cfg, times, a);
    if x :| x in w {
      var m := 0;
      while m !in w
        invariant forall k | k in w :: 0 <= m <= k
        decreases x - m
      {
        m := m + 1;
      }
      forall k | k in w
        ensures k in Range(m, cfg.maxRequests)
      {
        assert times[k] - times[m] < cfg.interval;
      }
      SmallerSet(w, Range(m, cfg.maxRequests));
    } else {
      assert w == {};
    }
  }

  lemma CrowdedWindow(cfg: Config, times: seq<real>, i: int, j: int)
    requires cfg.Valid() && Gaps(cfg, times) && 0 <= i && i + cfg.maxRequests <= j < |times|
    requires times[j] - times[i] < cfg.interval
    ensures |InWindow(cfg, times, times[i])| > cfg.maxRequests
  {
    forall k | k in Range(i, cfg.maxRequests + 1)
      ensures k in InWindow(cfg, times, times[i])
    {
      assert i < k ==> times[k] - times[i] >= cfg.MinGap();
      assert k < j ==> times[j] - times[k] >= cfg.MinGap();
    }
    SmallerSet(Range(i, cfg.maxRequests + 1), InWindow(cfg, times, times[i]));
  }

  lemma BoundedIsSpaced(cfg: Config, times: seq<real>)
    requires cfg.Valid()
    ensures Bounded(cfg, times) <==> Spaced(cfg, times)
  {
    if Spaced(cfg, times) {
      forall a
        ensures |InWindow(cfg, times, a)| <= cfg.maxRequests
      {
        WindowHolds(cfg, times, a);
      }
    } else if Gaps(cfg, times) {
      var i, j :| 0 <= i && i + cfg.maxRequests <= j < |times| && times[j] - times[i] < cfg.interval;
      CrowdedWindow(cfg, times, i, j);
    }
  }

  // ---------------------------------------------------------------- room for the next requests

  // The k-th of evenly spaced times.
  function Nth(start: real, k: nat, step: real): real {
    if k == 0 then start else Nth(start, k - 1, step) + step
  }

  lemma {:induction false} NthGrows(start: real, later: real, k: nat, step: real)
    requires start <= later && step > 0.0
    ensures start <= Nth(start, k, step) <= Nth(later, k, step)
  {
    if k > 0 {
      NthGrows(start, later, k - 1, step);
    }
  }

  lemma {:induction false} NthShifts(start: real, k: nat, step: real)
    ensures Nth(start + step, k, step) == Nth(start, k + 1, step)
  {
    if k > 0 {
      NthShifts(start, k - 1, step);
    }
  }

  // No request can be submitted before this time.
  function Earliest(cfg: Config, t: Times, c: Cycle): real {
    var due := if c.Dormant? then t.nextCycleDue else t.nextRequestDue;
    var quiet := t.lastActivity + cfg.quiet;
    Later(t.floor, Later(due, quiet))
  }

  function Later(a: real, b: real): real {
    if a < b then b else a
  }

  // How many requests the current or the next cycle may still submit.
  function Remaining(cfg: Config, c: Cycle): (n: int)
    ensures n <= cfg.maxRequests
  {
    if c.Dormant? then cfg.maxRequests else cfg.maxRequests - c.count
  }

  /** The k-th request from now could be at that time: far enough from the last one, and an interval after
      the one that would be the first of too many in a window. */
  predicate Fits(cfg: Config, times: seq<real>, at: real, k: nat)
    requires k < cfg.maxRequests
  {
    && (k == 0 && times != [] ==> at - times[|times| - 1] >= cfg.MinGap())
    && (cfg.maxRequests - k <= |times| ==> at - times[|times| + k - cfg.maxRequests] >= cfg.interval)
  }

  /** There is room for the next n requests, from start on and spaced as closely as may be. */
  predicate Room(cfg: Config, times: seq<real>, start: real, n: int)
    requires n <= cfg.maxRequests
  {
    forall k | 0 <= k < n :: Fits(cfg, times, Nth(start, k, cfg.spacing), k)
  }

  lemma LaterRoom(cfg: Config, times: seq<real>, start: real, later: real, n: int)
    requires cfg.Valid() && n <= cfg.maxRequests && Room(cfg, times, start, n) && start <= later
    ensures Room(cfg, times, later, n)
  {
    forall k | 0 <= k < n
      ensures Fits(cfg, times, Nth(later, k, cfg.spacing), k)
    {
      NthGrows(start, later, k, cfg.spacing);
      assert Fits(cfg, times, Nth(start, k, cfg.spacing), k);
    }
  }

  lemma FreshRoom(cfg: Config, times: seq<real>, now: real, start: real, n: int)
    requires cfg.Valid() && n <= cfg.maxRequests
    requires now + cfg.interval <= start && forall i | 0 <= i < |times| :: times[i] <= now
    ensures Room(cfg, times, start, n)
  {
    forall k | 0 <= k < n
      ensures Fits(cfg, times, Nth(start, k, cfg.spacing), k)
    {
      NthGrows(start, start, k, cfg.spacing);
    }
  }

  // One request takes the first place and leaves room for the others.
  lemma TakeRoom(cfg: Config, times: seq<real>, start: real, n: int)
    requires cfg.Valid() && 0 < n <= cfg.maxRequests && Room(cfg, times, start, n)
    ensures Room(cfg, times + [start], start + cfg.spacing, n - 1)
  {
    var longer, next := times + [start], start + cfg.spacing;
    forall k | 0 <= k < n - 1
      ensures Fits(cfg, longer, Nth(next, k, cfg.spacing), k)
    {
      NthShifts(start, k, cfg.spacing);
      assert Fits(cfg, times, Nth(start, k + 1, cfg.spacing), k + 1);
    }
  }

  lemma AppendSpaced(cfg: Config, times: seq<real>, at: real)
    requires cfg.Valid() && Spaced(cfg, times) && Fits(cfg, times, at, 0)
    ensures Spaced(cfg, times + [at])
  {
    var longer, n := times + [at], |times|;
    forall i | 0 <= i < n
      ensures at - times[i] >= cfg.MinGap()
    {
      assert i < n - 1 ==> times[n - 1] - times[i] >= cfg.MinGap();
    }
    forall i | 0 <= i && i + cfg.maxRequests <= n
      ensures at - times[i] >= cfg.interval
    {
      assert i < n - cfg.maxRequests ==> times[n - cfg.maxRequests] - times[i] >= cfg.MinGap();
    }
  }

  // ---------------------------------------------------------------- the invariant

  ghost predicate Rate(cfg: Config, open: bool, t: Times, c: Cycle, times: seq<real>) {
    && Spaced(cfg, times)
    && (forall i | 0 <= i < |times| :: times[i] <= t.floor)
    && 0 <= Remaining(cfg, c)
    && (open ==> Room(cfg, times, Earliest(cfg, t, c), Remaining(cfg, c)))
  }

  // A request may be submitted before the clock is read by a resume again.
  predicate Open(cfg: Config, s: Sched) {
    cfg.enabled && (s.accepting || s.cycle.Active?)
  }

  ghost predicate RateInv(cfg: Config, s: Sched) {
    Rate(cfg, Open(cfg, s), s.times, s.cycle, SubmissionTimes(s.history))
  }

  predicate PhaseInv(cfg: Config, s: Sched) {
    && (s.running ==> cfg.enabled)
    && match s.phase
       case Idle => true
       case Selecting(g) =>
         && s.running && s.cycle.Active? && s.cycle.count < cfg.maxRequests
         && s.times.nextRequestDue <= s.times.floor && g <= s.generation
       case Requesting => s.running && s.cycle.Active?
  }

  // The invariant sees only these parts of the state.
  lemma RateIs(cfg: Config, s: Sched, open: bool, t: Times, c: Cycle, times: seq<real>)
    requires Rate(cfg, open, t, c, times) && (Open(cfg, s) ==> open)
    requires s.times == t && s.cycle == c && SubmissionTimes(s.history) == times
    ensures RateInv(cfg, s)
  {
  }

  lemma LaterRate(cfg: Config, open: bool, t: Times, c: Cycle, times: seq<real>, now: real, activity: real)
    requires cfg.Valid() && Rate(cfg, open, t, c, times) && t.floor <= now && t.lastActivity <= activity
    ensures Rate(cfg, open, t.(floor := now, lastActivity := activity), c, times)
  {
    if open {
      var later := t.(floor := now, lastActivity := activity);
      LaterRoom(cfg, times, Earliest(cfg, t, c), Earliest(cfg, later, c), Remaining(cfg, c));
    }
  }

  // Due an interval after now, a new cycle has room.
  lemma RestedRate(cfg: Config, open: bool, t: Times, times: seq<real>)
    requires cfg.Valid() && Spaced(cfg, times) && forall i | 0 <= i < |times| :: times[i] <= t.floor
    requires t.floor + cfg.interval <= t.nextCycleDue
    ensures Rate(cfg, open, t, Dormant, times)
  {
    FreshRoom(cfg, times, t.floor, Earliest(cfg, t, Dormant), cfg.maxRequests);
  }

  lemma StartedRate(cfg: Config, t: Times, times: seq<real>)
    requires cfg.Valid() && Rate(cfg, true, t, Dormant, times)
    requires t.nextCycleDue <= t.floor && t.lastActivity + cfg.quiet <= t.floor
    ensures Rate(cfg, true, t.(nextRequestDue := t.floor), Active(0, {}), times)
  {
  }

  lemma SubmittedRate(cfg: Config, t: Times, count: nat, attempted: set<Candidate>, times: seq<real>)
    requires cfg.Valid() && Rate(cfg, true, t, Active(count, attempted), times)
    requires count < cfg.maxRequests && t.nextRequestDue <= t.floor && t.lastActivity + cfg.quiet <= t.floor
    ensures Rate(cfg, true, t.(nextRequestDue := t.floor + cfg.spacing), Active(count + 1, attempted),
                 times + [t.floor])
  {
    var n := cfg.maxRequests - count;
    assert Earliest(cfg, t, Active(count, attempted)) == t.floor;
    assert Nth(t.floor, 0, cfg.spacing) == t.floor;
    assert Fits(cfg, times, t.floor, 0);
    AppendSpaced(cfg, times, t.floor);
    TakeRoom(cfg, times, t.floor, n);
    assert Earliest(cfg, t.(nextRequestDue := t.floor + cfg.spacing), Active(count + 1, attempted))
        == t.floor + cfg.spacing;
  }

  // ---------------------------------------------------------------- one step

  lemma LaterKeepsRate(cfg: Config, s: Sched, now: real)
    requires cfg.Valid() && RateInv(cfg, s) && s.times.floor <= now
    ensures RateInv(cfg, At(s, now))
  {
    LaterRate(cfg, Open(cfg, s), s.times, s.cycle, SubmissionTimes(s.history), now, s.times.lastActivity);
    RateIs(cfg, At(s, now), Open(cfg, s), s.times.(floor := now), s.cycle, SubmissionTimes(s.history));
  }

  lemma CompleteKeepsRate(cfg: Config, s: Sched, now: real)
    requires cfg.Valid() && RateInv(cfg, s) && s.times.floor <= now
    ensures RateInv(cfg, CompleteCycle(cfg, At(s, now)))
  {
    var r := CompleteCycle(cfg, At(s, now));
    RestedRate(cfg, true, r.times, SubmissionTimes(s.history));
    RateIs(cfg, r, true, r.times, Dormant, SubmissionTimes(s.history));
  }

  lemma CompletionKeepsRate(cfg: Config, s: Sched, clock: Clock)
    requires cfg.Valid() && RateInv(cfg, s)
    ensures RateInv(cfg, CompleteAt(cfg, s, clock))
  {
    if clock.Some? {
      CompleteKeepsRate(cfg, s, Floor(s, clock.value));
    }
  }

  lemma StartKeepsRate(cfg: Config, s: Sched)
    requires cfg.Valid() && RateInv(cfg, s) && Open(cfg, s) && s.cycle.Dormant?
    requires s.times.nextCycleDue <= s.times.floor && !Recent(cfg, s)
    ensures RateInv(cfg, StartCycle(s))
  {
    var times := SubmissionTimes(s.history);
    StartedRate(cfg, s.times, times);
    TimesAppend(s.history, CycleStarted(s.times.floor));
    RateIs(cfg, StartCycle(s), true, s.times.(nextRequestDue := s.times.floor), Active(0, {}), times);
  }

  lemma SelectingKeepsRate(cfg: Config, s: Sched)
    requires RateInv(cfg, s)
    ensures RateInv(cfg, Note(s.(phase := Selecting(s.generation)), SelectionBegan))
  {
    TimesAppend(s.history, SelectionBegan);
  }

  lemma ProceedKeepsRate(cfg: Config, s: Sched, busy: Busy)
    requires cfg.Valid() && RateInv(cfg, s) && s.cycle.Active?
    ensures RateInv(cfg, Proceed(cfg, s, busy))
  {
    if s.cycle.count >= cfg.maxRequests {
      CompleteKeepsRate(cfg, s, s.times.floor);
      assert Proceed(cfg, s, busy) == CompleteCycle(cfg, At(s, s.times.floor));
    } else if MaySelect(cfg, s, busy) {
      SelectingKeepsRate(cfg, s);
    } else {
      assert Proceed(cfg, s, busy) == s;
    }
  }

  lemma TickKeepsRate(cfg: Config, s: Sched, clock: Clock, recovery: Clock, b0: Busy, b1: Busy)
    requires cfg.Valid() && RateInv(cfg, s)
    ensures RateInv(cfg, OnTick(cfg, s, clock, recovery, b0, b1))
  {
    if clock.None? {
      CompletionKeepsRate(cfg, s, recovery);
    } else if cfg.enabled && s.accepting {
      var r := At(s, Floor(s, clock.value));
      LaterKeepsRate(cfg, s, Floor(s, clock.value));
      if r.cycle.Active? {
        ProceedKeepsRate(cfg, r, b1);
      } else if MayStart(cfg, r, b0) {
        StartKeepsRate(cfg, r);
        ProceedKeepsRate(cfg, StartCycle(r), b1);
      }
    }
  }

  lemma SubmittingKeepsRate(cfg: Config, s: Sched, c: Candidate, generation: nat, busy: Busy)
    requires cfg.Valid() && cfg.enabled && RateInv(cfg, s) && MaySubmit(cfg, s, generation, busy)
    requires s.cycle.Active? && s.cycle.count < cfg.maxRequests && s.times.nextRequestDue <= s.times.floor
    ensures RateInv(cfg, Submit(cfg, s, c, generation, busy))
  {
    var now, times := s.times.floor, SubmissionTimes(s.history);
    SubmittedTimes(s.history, now, c);
    SubmittedRate(cfg, s.times, s.cycle.count, s.cycle.attempted, times);
    RateIs(cfg, Submit(cfg, s, c, generation, busy), true, s.times.(nextRequestDue := now + cfg.spacing),
           Active(s.cycle.count + 1, s.cycle.attempted), times + [now]);
  }

  lemma PickKeepsRate(cfg: Config, s: Sched, c: Candidate)
    requires RateInv(cfg, s) && s.cycle.Active?
    ensures RateInv(cfg, Pick(s, c))
  {
    TimesAppend(s.history, Picked(c));
    RateIs(cfg, Pick(s, c), Open(cfg, s), s.times, Pick(s, c).cycle, SubmissionTimes(s.history));
  }

  lemma CandidateKeepsRate(cfg: Config, s: Sched, c: Candidate, generation: nat, clock: Clock, recovery: Clock,
                           busy: Busy)
    requires cfg.Valid() && cfg.enabled && RateInv(cfg, s)
    requires s.cycle.Active? && s.cycle.count < cfg.maxRequests && s.times.nextRequestDue <= s.times.floor
    ensures RateInv(cfg, TryCandidate(cfg, s, c, generation, clock, recovery, busy))
  {
    var picked := Pick(s, c);
    PickKeepsRate(cfg, s, c);
    if clock.None? {
      CompletionKeepsRate(cfg, picked, recovery);
    } else {
      var later := At(picked, Floor(s, clock.value));
      LaterKeepsRate(cfg, picked, Floor(s, clock.value));
      if MaySubmit(cfg, later, generation, busy) {
        SubmittingKeepsRate(cfg, later, c, generation, busy);
      }
    }
  }

  lemma SelectionKeepsRate(cfg: Config, s: Sched, selection: Selection, clock: Clock, recovery: Clock, busy: Busy)
    requires cfg.Valid() && RateInv(cfg, s) && PhaseInv(cfg, s) && s.phase.Selecting?
    ensures RateInv(cfg, OnSelection(cfg, s, selection, clock, recovery, busy))
  {
    var idle := s.(phase := Idle);
    if !selection.SelectionCancelled? && BringsNew(s, selection) {
      CandidateKeepsRate(cfg, idle, selection.candidate, s.phase.generation, clock, recovery, busy);
    } else {
      CompletionKeepsRate(cfg, idle, FirstValid(clock, recovery));
    }
  }

  lemma RequestEndKeepsRate(cfg: Config, s: Sched, result: Result, clock: Clock, recovery: Clock)
    requires cfg.Valid() && RateInv(cfg, s) && s.cycle.Active?
    ensures RateInv(cfg, OnRequestEnd(cfg, s, result, clock, recovery))
  {
    CompletionKeepsRate(cfg, s.(phase := Idle, tally := Tallied(s.tally, result)), FirstValid(clock, recovery));
  }

  lemma ActivityKeepsRate(cfg: Config, s: Sched, clock: Clock)
    requires cfg.Valid() && RateInv(cfg, s)
    ensures RateInv(cfg, OnActivity(s, clock))
  {
    if clock.Some? {
      var r := OnActivity(s, clock);
      TimesAppend(s.history, Activity(r.times.floor));
      LaterRate(cfg, Open(cfg, s), s.times, s.cycle, SubmissionTimes(s.history), r.times.floor, r.times.lastActivity);
      RateIs(cfg, r, Open(cfg, s), r.times, s.cycle, SubmissionTimes(s.history));
    }
  }

  lemma ResumeKeepsRate(cfg: Config, s: Sched, now: real)
    requires cfg.Valid() && RateInv(cfg, s)
    ensures RateInv(cfg, OnResume(cfg, s, Some(now)))
  {
    var r := OnResume(cfg, s, Some(now));
    TimesAppend(s.history, Opened(r.times.floor));
    RestedRate(cfg, true, r.times, SubmissionTimes(s.history));
    RateIs(cfg, r, true, r.times, Dormant, SubmissionTimes(s.history));
  }

  /** A resume that takes effect but cannot read the clock. */
  predicate IsRejectedResume(s: Sched, e: Event) {
    e == Resumed(None) && Enabled(s, e)
  }

  /** The guard: with the old due times, the next cycle could not start too early. */
  predicate HasRoom(cfg: Config, s: Sched) {
    cfg.enabled ==>
      Room(cfg, SubmissionTimes(s.history), Earliest(cfg, s.times, s.cycle), Remaining(cfg, s.cycle))
  }

  lemma RejectionKeepsRate(cfg: Config, s: Sched)
    requires RateInv(cfg, s) && HasRoom(cfg, s)
    ensures RateInv(cfg, OnResume(cfg, s, None))
  {
    RateIs(cfg, OnResume(cfg, s, None), cfg.enabled, s.times, s.cycle, SubmissionTimes(s.history));
  }

  lemma StepKeepsRate(cfg: Config, s: Sched, e: Event)
    requires cfg.Valid() && RateInv(cfg, s) && PhaseInv(cfg, s)
    requires IsRejectedResume(s, e) ==> HasRoom(cfg, s)
    ensures RateInv(cfg, Step(cfg, s, e))
  {
    if Enabled(s, e) {
      match e {
        case ActivityRecorded(clock) => ActivityKeepsRate(cfg, s, clock);
        case TickBegins(clock, recovery, b0, b1) => TickKeepsRate(cfg, s, clock, recovery, b0, b1);
        case SelectionEnds(selection, clock, recovery, busy) =>
          SelectionKeepsRate(cfg, s, selection, clock, recovery, busy);
        case RequestEnds(result, clock, recovery) => RequestEndKeepsRate(cfg, s, result, clock, recovery);
        case Resumed(Some(now)) => ResumeKeepsRate(cfg, s, now);
        case Resumed(None) => RejectionKeepsRate(cfg, s);
        case Started => RateIs(cfg, OnStart(cfg, s), Open(cfg, s), s.times, s.cycle, SubmissionTimes(s.history));
        case OwnerEnded =>
        case Fenced =>
        case Drained =>
      }
    }
  }

  lemma StepKeepsPhase(cfg: Config, s: Sched, e: Event)
    requires PhaseInv(cfg, s)
    ensures PhaseInv(cfg, Step(cfg, s, e))
  {
  }

  // ---------------------------------------------------------------- runs

  /** Every resume of the run that cannot read the clock finds room. */
  predicate Harmless(cfg: Config, s: Sched, events: seq<Event>)
    decreases |events|
  {
    events == [] ||
    ((IsRejectedResume(s, events[0]) ==> HasRoom(cfg, s)) && Harmless(cfg, Step(cfg, s, events[0]), events[1..]))
  }

  predicate ReadsEveryResume(events: seq<Event>) {
    forall e | e in events :: e.Resumed? ==> e.clock.Some?
  }

  lemma {:induction false} AcceptedResumesAreHarmless(cfg: Config, s: Sched, events: seq<Event>)
    requires ReadsEveryResume(events)
    ensures Harmless(cfg, s, events)
    decreases |events|
  {
    if events != [] {
      assert events[0] in events;
      AcceptedResumesAreHarmless(cfg, Step(cfg, s, events[0]), events[1..]);
    }
  }

  lemma {:induction false} RunKeepsRate(cfg: Config, s: Sched, events: seq<Event>)
    requires cfg.Valid() && RateInv(cfg, s) && PhaseInv(cfg, s) && Harmless(cfg, s, events)
    ensures RateInv(cfg, Run(cfg, s, events)) && PhaseInv(cfg, Run(cfg, s, events))
    decreases |events|
  {
    if events != [] {
      StepKeepsRate(cfg, s, events[0]);
      StepKeepsPhase(cfg, s, events[0]);
      RunKeepsRate(cfg, Step(cfg, s, events[0]), events[1..]);
    }
  }

  lemma ConstructedRate(cfg: Config, now: real)
    requires cfg.Valid()
    ensures RateInv(cfg, Constructed(cfg, now)) && PhaseInv(cfg, Constructed(cfg, now))
  {
    assert Constructed(cfg, now).history == [] + [Opened(now)];
    TimesAppend([], Opened(now));
    FreshRoom(cfg, [], now, Earliest(cfg, OpenTimes(cfg, now), Dormant), cfg.maxRequests);
  }

  /** The rate bound.  For any clock, callbacks, cancellations, fences, starts and resumes, as long as every
      resume that cannot read the clock finds room; every run whose resumes all read the clock is such a
      run. */
  lemma RateIsBounded(cfg: Config, now: real, events: seq<Event>)
    requires cfg.Valid() && Harmless(cfg, Constructed(cfg, now), events)
    ensures Bounded(cfg, SubmissionTimes(Run(cfg, Constructed(cfg, now), events).history))
  {
    ConstructedRate(cfg, now);
    RunKeepsRate(cfg, Constructed(cfg, now), events);
    BoundedIsSpaced(cfg, SubmissionTimes(Run(cfg, Constructed(cfg, now), events).history));
  }

  lemma {:induction false} RunAppend(cfg: Config, s: Sched, a: seq<Event>, b: seq<Event>)
    ensures Run(cfg, s, a + b) == Run(cfg, Run(cfg, s, a), b)
    decreases |a|
  {
    if a == [] {
      assert a + b == b;
    } else {
      assert (a + b)[1..] == a[1..] + b;
      RunAppend(cfg, Step(cfg, s, a[0]), a[1..], b);
    }
  }

  // ---------------------------------------------------------------- requests as early as may be

  // A different candidate for every number.
  function Name(k: nat): Candidate {
    seq(k, _ => 'n')
  }

  function Names(k: nat): set<Candidate> {
    set i | 0 <= i < k :: Name(i)
  }

  function OneRequest(now: real, c: Candidate): seq<Event> {
    [TickBegins(Some(now), None, Some(false), Some(false)), SelectionEnds(Chosen(c), Some(now), None, Some(false))]
  }

  function Success(now: real): Event {
    RequestEnds(Succeeded, Some(now), None)
  }

  // The first k requests of a cycle that starts at start.
  function Requests(cfg: Config, start: real, k: nat): seq<Event> {
    if k == 0 then []
    else
      var at := Nth(start, k - 1, cfg.spacing);
      Requests(cfg, start, k - 1) + OneRequest(at, Name(k - 1)) + [Success(at)]
  }

  // The scheduler may submit its k-th request of the cycle at that time.
  predicate Ready(cfg: Config, s: Sched, k: nat, at: real) {
    && cfg.enabled && s.accepting && s.running && s.phase.Idle? && s.times.floor <= at
    && s.times.lastActivity + cfg.quiet <= at
    && (if k == 0 then s.cycle.Dormant? && s.times.nextCycleDue <= at
        else s.cycle == Active(k, Names(k)) && s.times.nextRequestDue <= at)
  }

  lemma RunTwo(cfg: Config, s: Sched, a: Event, b: Event)
    ensures Run(cfg, s, [a, b]) == Step(cfg, Step(cfg, s, a), b)
  {
    assert [a, b][1..] == [b] && [b][1..] == [];
    assert Run(cfg, Step(cfg, s, a), [b]) == Step(cfg, Step(cfg, s, a), b);
  }

  // The tick has asked for the k-th candidate.
  predicate Asked(s: Sched, k: nat, at: real, t: Times) {
    && s.accepting && s.running && s.phase == Selecting(s.generation) && s.cycle == Active(k, Names(k))
    && s.times.floor == at && s.times.lastActivity == t.lastActivity && s.times.nextCycleDue == t.nextCycleDue
  }

  lemma FirstTickSelects(cfg: Config, s: Sched, at: real)
    requires cfg.Valid() && Ready(cfg, s, 0, at)
    ensures var r := Step(cfg, s, OneRequest(at, Name(0))[0]);
            Asked(r, 0, at, s.times) && r.history == s.history + [CycleStarted(at)] + [SelectionBegan]
  {
    var r := StartCycle(At(s, at));
    assert Names(0) == {};
    assert MayStart(cfg, At(s, at), Some(false));
    assert MaySelect(cfg, r, Some(false)) && r.cycle == Active(0, {});
    assert Step(cfg, s, OneRequest(at, Name(0))[0]) == Proceed(cfg, r, Some(false));
  }

  lemma LaterTickSelects(cfg: Config, s: Sched, k: nat, at: real)
    requires cfg.Valid() && 0 < k < cfg.maxRequests && Ready(cfg, s, k, at)
    ensures var r := Step(cfg, s, OneRequest(at, Name(k))[0]);
            Asked(r, k, at, s.times) && r.history == s.history + [SelectionBegan]
  {
    assert MaySelect(cfg, At(s, at), Some(false));
    assert Step(cfg, s, OneRequest(at, Name(k))[0]) == Proceed(cfg, At(s, at), Some(false));
  }

  lemma TickSelects(cfg: Config, s: Sched, k: nat, at: real)
    requires cfg.Valid() && k < cfg.maxRequests && Ready(cfg, s, k, at)
    ensures var r := Step(cfg, s, OneRequest(at, Name(k))[0]);
            Asked(r, k, at, s.times) && SubmissionTimes(r.history) == SubmissionTimes(s.history)
  {
    if k == 0 {
      FirstTickSelects(cfg, s, at);
      TimesAppend(s.history, CycleStarted(at));
      TimesAppend(s.history + [CycleStarted(at)], SelectionBegan);
    } else {
      LaterTickSelects(cfg, s, k, at);
      TimesAppend(s.history, SelectionBegan);
    }
  }

  // The k-th request has been submitted and is in flight.
  predicate InFlight(cfg: Config, s: Sched, k: nat, at: real, t: Times) {
    && s.accepting && s.running && s.phase.Requesting? && s.cycle == Active(k + 1, Names(k + 1))
    && s.times == Times(at, t.lastActivity, t.nextCycleDue, at + cfg.spacing)
  }

  lemma NewName(k: nat)
    ensures Name(k) !in Names(k) && Names(k + 1) == Names(k) + {Name(k)}
  {
    assert forall i | 0 <= i < k :: |Name(i)| < |Name(k)|;
  }

  lemma SelectionSubmits(cfg: Config, s: Sched, k: nat, at: real, t: Times)
    requires cfg.Valid() && Asked(s, k, at, t) && t.lastActivity + cfg.quiet <= at
    ensures var r := Step(cfg, s, OneRequest(at, Name(k))[1]);
            InFlight(cfg, r, k, at, t) && SubmissionTimes(r.history) == SubmissionTimes(s.history) + [at]
  {
    var picked := Pick(s.(phase := Idle), Name(k));
    NewName(k);
    TimesAppend(s.history, Picked(Name(k)));
    SubmittedTimes(picked.history, at, Name(k));
    assert At(picked, at) == picked;
    assert MaySubmit(cfg, picked, s.generation, Some(false));
    assert Step(cfg, s, OneRequest(at, Name(k))[1]) == Submit(cfg, picked, Name(k), s.generation, Some(false));
  }

  /** A scheduler that is ready does submit. */
  lemma OneRequestSubmits(cfg: Config, s: Sched, k: nat, at: real)
    requires cfg.Valid() && k < cfg.maxRequests && Ready(cfg, s, k, at)
    ensures var r := Run(cfg, s, OneRequest(at, Name(k)));
            InFlight(cfg, r, k, at, s.times) && SubmissionTimes(r.history) == SubmissionTimes(s.history) + [at]
  {
    var e := OneRequest(at, Name(k));
    TickSelects(cfg, s, k, at);
    SelectionSubmits(cfg, Step(cfg, s, e[0]), k, at, s.times);
    RunTwo(cfg, s, e[0], e[1]);
  }

  function Grid(start: real, k: nat, step: real): seq<real> {
    seq(k, i requires 0 <= i < k => Nth(start, i, step))
  }

  lemma {:induction false} RequestsSubmit(cfg: Config, s: Sched, start: real, k: nat)
    requires cfg.Valid() && k < cfg.maxRequests && Ready(cfg, s, 0, start)
    ensures var r := Run(cfg, s, Requests(cfg, start, k));
            && Ready(cfg, r, k, Nth(start, k, cfg.spacing))
            && SubmissionTimes(r.history) == SubmissionTimes(s.history) + Grid(start, k, cfg.spacing)
  {
    if k == 0 {
      assert SubmissionTimes(s.history) + Grid(start, 0, cfg.spacing) == SubmissionTimes(s.history);
    } else {
      var at := Nth(start, k - 1, cfg.spacing);
      var before := Requests(cfg, start, k - 1);
      RequestsSubmit(cfg, s, start, k - 1);
      var r := Run(cfg, s, before);
      OneRequestSubmits(cfg, r, k - 1, at);
      RunAppend(cfg, s, before, OneRequest(at, Name(k - 1)));
      RunAppend(cfg, s, before + OneRequest(at, Name(k - 1)), [Success(at)]);
      SuccessIdles(cfg, Run(cfg, r, OneRequest(at, Name(k - 1))), at);
      GridGrows(SubmissionTimes(s.history), start, k - 1, cfg.spacing);
    }
  }

  lemma SuccessIdles(cfg: Config, s: Sched, at: real)
    requires s.phase.Requesting? && s.cycle.Active? && s.cycle.count < cfg.maxRequests
    ensures var r := Run(cfg, s, [Success(at)]);
            r == s.(phase := Idle, tally := Tallied(s.tally, Succeeded))
  {
    RunOne(cfg, s, Success(at));
  }

  // ---------------------------------------------------------------- the guard is exact

  // Started at once, the scheduler submits k + 1 requests as early as it can.
  function Rush(cfg: Config, start: real, k: nat): seq<Event> {
    [Started] + Requests(cfg, start, k) + OneRequest(Nth(start, k, cfg.spacing), Name(k))
  }

  lemma RushSubmits(cfg: Config, s: Sched, start: real, k: nat)
    requires cfg.Valid() && k < cfg.maxRequests && Ready(cfg, OnStart(cfg, s), 0, start)
    ensures SubmissionTimes(Run(cfg, s, Rush(cfg, start, k)).history)
            == SubmissionTimes(s.history) + Grid(start, k + 1, cfg.spacing)
  {
    var at, begun := Nth(start, k, cfg.spacing), OnStart(cfg, s);
    RunOne(cfg, s, Started);
    RequestsSubmit(cfg, begun, start, k);
    OneRequestSubmits(cfg, Run(cfg, begun, Requests(cfg, start, k)), k, at);
    RunAppend(cfg, s, [Started], Requests(cfg, start, k));
    RunAppend(cfg, s, [Started] + Requests(cfg, start, k), OneRequest(at, Name(k)));
    GridGrows(SubmissionTimes(s.history), start, k, cfg.spacing);
  }

  lemma RunOne(cfg: Config, s: Sched, e: Event)
    ensures Run(cfg, s, [e]) == Step(cfg, s, e)
  {
    assert [e][1..] == [];
  }

  lemma GridGrows(times: seq<real>, start: real, k: nat, step: real)
    ensures times + Grid(start, k, step) + [Nth(start, k, step)] == times + Grid(start, k + 1, step)
  {
  }

  lemma {:induction false} RequestsReadNothing(cfg: Config, start: real, k: nat)
    ensures ReadsEveryResume(Requests(cfg, start, k))
  {
    if k > 0 {
      RequestsReadNothing(cfg, start, k - 1);
    }
  }

  lemma RushReadsNothing(cfg: Config, start: real, k: nat)
    ensures ReadsEveryResume(Rush(cfg, start, k))
  {
    RequestsReadNothing(cfg, start, k);
  }

  lemma MisfitBreaksSpacing(cfg: Config, times: seq<real>, start: real, k: nat)
    requires cfg.Valid() && k < cfg.maxRequests && !Fits(cfg, times, Nth(start, k, cfg.spacing), k)
    ensures !Spaced(cfg, times + Grid(start, k + 1, cfg.spacing))
  {
    var longer := times + Grid(start, k + 1, cfg.spacing);
    assert longer[|times| + k] == Nth(start, k, cfg.spacing);
    if k == 0 && times != [] && start - times[|times| - 1] < cfg.MinGap() {
      assert longer[|times| - 1] == times[|times| - 1];
    } else {
      var i := |times| + k - cfg.maxRequests;
      assert longer[i] == times[i];
    }
  }

  /** The guard is exact.  After any harmless run, a resume that cannot read the clock keeps every
      continuation within the bound if and only if there is room for the next cycle: from the latest of the
      clock's floor, the old due time and the end of the quiet time, each of its requests would be far
      enough from the last one and an interval after the one it would crowd. */
  lemma GuardIsExact(cfg: Config, now: real, before: seq<Event>)
    requires cfg.Valid() && Harmless(cfg, Constructed(cfg, now), before)
    requires IsRejectedResume(Run(cfg, Constructed(cfg, now), before), Resumed(None))
    ensures var s := Run(cfg, Constructed(cfg, now), before);
            var r := Step(cfg, s, Resumed(None));
            (forall rest | ReadsEveryResume(rest) :: Bounded(cfg, SubmissionTimes(Run(cfg, r, rest).history)))
            <==> HasRoom(cfg, s)
  {
    var s := Run(cfg, Constructed(cfg, now), before);
    var r := Step(cfg, s, Resumed(None));
    ConstructedRate(cfg, now);
    RunKeepsRate(cfg, Constructed(cfg, now), before);
    if HasRoom(cfg, s) {
      forall rest | ReadsEveryResume(rest)
        ensures Bounded(cfg, SubmissionTimes(Run(cfg, r, rest).history))
      {
        RoomSuffices(cfg, s, rest);
      }
    } else {
      var rest := NoRoomBreaks(cfg, s);
    }
  }

  lemma RoomSuffices(cfg: Config, s: Sched, rest: seq<Event>)
    requires cfg.Valid() && RateInv(cfg, s) && PhaseInv(cfg, s) && HasRoom(cfg, s) && ReadsEveryResume(rest)
    ensures Bounded(cfg, SubmissionTimes(Run(cfg, Step(cfg, s, Resumed(None)), rest).history))
  {
    var r := Step(cfg, s, Resumed(None));
    StepKeepsRate(cfg, s, Resumed(None));
    StepKeepsPhase(cfg, s, Resumed(None));
    AcceptedResumesAreHarmless(cfg, r, rest);
    RunKeepsRate(cfg, r, rest);
    BoundedIsSpaced(cfg, SubmissionTimes(Run(cfg, r, rest).history));
  }

  lemma NoRoomBreaks(cfg: Config, s: Sched) returns (rest: seq<Event>)
    requires cfg.Valid() && RateInv(cfg, s) && !HasRoom(cfg, s) && IsRejectedResume(s, Resumed(None))
    ensures ReadsEveryResume(rest)
    ensures !Bounded(cfg, SubmissionTimes(Run(cfg, Step(cfg, s, Resumed(None)), rest).history))
  {
    var r, times, start := Step(cfg, s, Resumed(None)), SubmissionTimes(s.history), Earliest(cfg, s.times, s.cycle);
    var k :| 0 <= k < cfg.maxRequests && !Fits(cfg, times, Nth(start, k, cfg.spacing), k);
    rest := Rush(cfg, start, k);
    RushReadsNothing(cfg, start, k);
    RushSubmits(cfg, r, start, k);
    MisfitBreaksSpacing(cfg, times, start, k);
    BoundedIsSpaced(cfg, SubmissionTimes(Run(cfg, r, rest).history));
  }

  // ---------------------------------------------------------------- a resume without a clock

  // A request, cancelled by a fence; then a resume that fails to read the clock, and a start all the same.
  function Reopening(): seq<Event> {
    [Fenced, RequestEnds(RequestCancelled, None, None), Drained, Resumed(None), Started]
  }

  function Hasty(cfg: Config): seq<Event> {
    var now := Later(cfg.interval, cfg.quiet);
    [Started] + OneRequest(now, Name(0)) + Reopening() + OneRequest(now, Name(0))
  }

  lemma ReopeningStarts(cfg: Config, s: Sched)
    requires cfg.enabled && s.phase.Requesting? && s.cycle.Active?
    ensures var r := Run(cfg, s, Reopening());
            r.accepting && r.running && r.phase.Idle? && r.cycle.Dormant?
            && r.times == s.times && r.history == s.history
  {
    var e := Reopening();
    var a := Step(cfg, s, e[0]);
    var b := Step(cfg, a, e[1]);
    var c := Step(cfg, b, e[2]);
    RunTwo(cfg, s, e[0], e[1]);
    RunTwo(cfg, b, e[2], e[3]);
    var d := Step(cfg, c, e[3]);
    RunAppend(cfg, s, [e[0], e[1]], [e[2], e[3]]);
    RunAppend(cfg, s, [e[0], e[1]] + [e[2], e[3]], [e[4]]);
    assert e == [e[0], e[1]] + [e[2], e[3]] + [e[4]];
    RunOne(cfg, d, e[4]);
  }

  /** Where there is no room the bound does fail, for every enabled configuration: after a resume that could
      not read the clock one start lets a second request out with no time passing at all. */
  lemma RejectedResumeBreaksTheRate(cfg: Config)
    requires cfg.Valid() && cfg.enabled
    ensures var times := SubmissionTimes(Run(cfg, Constructed(cfg, 0.0), Hasty(cfg)).history);
            |times| == 2 && times[0] == times[1] && !Bounded(cfg, times)
  {
    var now, one := Later(cfg.interval, cfg.quiet), OneRequest(Later(cfg.interval, cfg.quiet), Name(0));
    var s0 := Constructed(cfg, 0.0);
    var s1 := Step(cfg, s0, Started);
    TimesAppend([], Opened(0.0));
    assert s0.history == [] + [Opened(0.0)];
    RunOne(cfg, s0, Started);
    OneRequestSubmits(cfg, s1, 0, now);
    ReopeningStarts(cfg, Run(cfg, s1, one));
    OneRequestSubmits(cfg, Run(cfg, Run(cfg, s1, one), Reopening()), 0, now);
    RunAppend(cfg, s0, [Started], one);
    RunAppend(cfg, s0, [Started] + one, Reopening());
    RunAppend(cfg, s0, [Started] + one + Reopening(), one);
    var times := SubmissionTimes(Run(cfg, s0, Hasty(cfg)).history);
    assert times == [now, now] && times[1] - times[0] < cfg.MinGap();
  }
}
