/**
The scheduler object itself: its fields, updated in place by the code between two awaits.  Every method
takes the object from one state of the specification to the next.
*/
module MaintenanceScheduler {
  import opened Basics
  import opened MaintenanceScan

  class MaintenanceScanScheduler {
    const config: Config
    var clockFloor: real
    var lastActivity: real
    var nextCycleDue: real
    var nextRequestDue: real
    var accepting: bool
    // The background task exists and is not done.
    var running: bool
    var cycleActive: bool
    var cycleRequestCount: nat
    var attemptedCandidates: set<Candidate>
    var activityGeneration: nat
    var requestAttemptCount: nat
    var requestSuccessCount: nat
    var requestFailureCount: nat
    var requestCancellationCount: nat
    // Where the tick that holds the tick lock is suspended.
    var tick: Phase
    ghost var lost: nat
    ghost var history: seq<Mark>

    ghost function View(): Sched
      reads this
    {
      Sched(accepting, running, Times(clockFloor, lastActivity, nextCycleDue, nextRequestDue),
            if cycleActive then Active(cycleRequestCount, attemptedCandidates) else Dormant,
            activityGeneration, tick,
            Tally(requestAttemptCount, requestSuccessCount, requestFailureCount, requestCancellationCount),
            lost, history)
    }

    constructor (config: Config, now: real)
      ensures this.config == config && View() == Constructed(config, now)
    {
      this.config := config;
      clockFloor, lastActivity := now, now;
      nextCycleDue, nextRequestDue := now + config.interval, now + config.interval;
      accepting, running, cycleActive, cycleRequestCount, attemptedCandidates := true, false, false, 0, {};
      activityGeneration, tick := 0, Idle;
      requestAttemptCount, requestSuccessCount, requestFailureCount, requestCancellationCount := 0, 0, 0, 0;
      lost, history := 0, [Opened(now)];
    }

    method Now(reading: real) returns (now: real)
      modifies `clockFloor
      ensures now == Floor(old(View()), reading)
      ensures View() == At(old(View()), now)
    {
      if reading < clockFloor {
        return clockFloor;
      }
      clockFloor := reading;
      return reading;
    }

    method StartNewCycle(now: real)
      requires now == clockFloor
      modifies `cycleActive, `cycleRequestCount, `attemptedCandidates, `nextRequestDue, `lost, `history
      ensures View() == StartCycle(old(View()))
    {
      cycleActive, cycleRequestCount, attemptedCandidates := true, 0, {};
      nextRequestDue := now;
      lost := 0;
      history := history + [CycleStarted(now)];
    }

    method FinishCycle(now: real)
      requires now == clockFloor
      modifies `cycleActive, `cycleRequestCount, `attemptedCandidates, `nextCycleDue, `nextRequestDue
      ensures View() == CompleteCycle(config, old(View()))
    {
      cycleActive, cycleRequestCount, attemptedCandidates := false, 0, {};
      nextCycleDue := now + config.interval;
      nextRequestDue := nextCycleDue;
    }

    method ClearCycle()
      modifies `cycleActive, `cycleRequestCount, `attemptedCandidates
      ensures View() == old(View()).(cycle := Dormant)
    {
      cycleActive, cycleRequestCount, attemptedCandidates := false, 0, {};
    }

    // What the runner does after an error: complete the cycle, or end when the clock fails as well.
    method FinishAt(clock: Clock)
      modifies `running, `clockFloor, `cycleActive, `cycleRequestCount, `attemptedCandidates,
               `nextCycleDue, `nextRequestDue
      ensures View() == CompleteAt(config, old(View()), clock)
    {
      if clock.Some? {
        var now := Now(clock.value);
        FinishCycle(now);
      } else {
        running := false;
      }
    }

    predicate TrafficIsRecent(now: real)
      reads this
    {
      now - lastActivity < config.quiet
    }

    method RecordActivity(clock: Clock) returns (generation: Option<nat>)
      modifies this
      ensures View() == Step(config, old(View()), ActivityRecorded(clock))
      ensures generation == if clock.Some? then Some(old(activityGeneration) + 1) else None
    {
      if clock.None? {
        return None;
      }
      var now := Now(clock.value);
      if lastActivity < now {
        lastActivity := now;
      }
      activityGeneration := activityGeneration + 1;
      history := history + [Activity(now)];
      return Some(activityGeneration);
    }

    // The active cycle's half of a tick, up to the await of the candidate callback.
    method ProceedWithCycle(now: real, busy: Busy)
      requires now == clockFloor && cycleActive && tick.Idle?
      modifies this
      ensures View() == Proceed(config, old(View()), busy)
    {
      if cycleRequestCount >= config.maxRequests {
        FinishCycle(now);
        return;
      }
      if now < nextRequestDue || TrafficIsRecent(now) {
        return;
      }
      if busy.None? || busy.value {
        return;
      }
      tick := Selecting(activityGeneration);
      history := history + [SelectionBegan];
    }

    method BeginTick(clock: Clock, recovery: Clock, busyStart: Busy, busyNext: Busy)
      modifies this
      ensures View() == Step(config, old(View()), TickBegins(clock, recovery, busyStart, busyNext))
    {
      if !tick.Idle? || !running {
        return;
      }
      if !config.enabled || !accepting {
        return;
      }
      if clock.None? {
        FinishAt(recovery);
        return;
      }
      var now := Now(clock.value);
      if !cycleActive {
        if now < nextCycleDue || TrafficIsRecent(now) {
          return;
        }
        if busyStart.None? || busyStart.value {
          return;
        }
        StartNewCycle(now);
      }
      ProceedWithCycle(now, busyNext);
    }

    // From the late gate to the submission.
    method SubmitCandidate(now: real, candidate: Candidate, generation: nat, busy: Busy)
      requires now == clockFloor && cycleActive
      modifies this
      ensures View() == Submit(config, old(View()), candidate, generation, busy)
    {
      if activityGeneration != generation || TrafficIsRecent(now) {
        return;
      }
      if busy.None? || busy.value {
        return;
      }
      history := history + [FoundIdle];
      requestAttemptCount := requestAttemptCount + 1;
      cycleRequestCount := cycleRequestCount + 1;
      nextRequestDue := now + config.spacing;
      tick := Requesting;
      history := history + [Submitted(now, candidate)];
    }

    // A new candidate is excluded first, then gated.
    method TakeCandidate(candidate: Candidate, generation: nat, clock: Clock, recovery: Clock, busy: Busy)
      requires cycleActive
      modifies this
      ensures View() == TryCandidate(config, old(View()), candidate, generation, clock, recovery, busy)
    {
      attemptedCandidates := attemptedCandidates + {candidate};
      history := history + [Picked(candidate)];
      if clock.None? {
        FinishAt(recovery);
        return;
      }
      var now := Now(clock.value);
      SubmitCandidate(now, candidate, generation, busy);
    }

    method EndSelection(selection: Selection, clock: Clock, recovery: Clock, busy: Busy)
      requires Enabled(View(), SelectionEnds(selection, clock, recovery, busy))
      modifies this
      ensures View() == Step(config, old(View()), SelectionEnds(selection, clock, recovery, busy))
    {
      var generation := tick.generation;
      tick := Idle;
      if selection.SelectionCancelled? {
        lost, running := lost + 1, false;
        return;
      }
      var isNew := selection.Chosen? && selection.candidate !in attemptedCandidates;
      if !isNew {
        if clock.None? && recovery.None? {
          lost, running := lost + 1, false;
          return;
        }
        FinishAt(if clock.Some? then clock else recovery);
        return;
      }
      TakeCandidate(selection.candidate, generation, clock, recovery, busy);
    }

    method EndRequest(result: Result, clock: Clock, recovery: Clock)
      requires Enabled(View(), RequestEnds(result, clock, recovery))
      modifies this
      ensures View() == Step(config, old(View()), RequestEnds(result, clock, recovery))
    {
      tick := Idle;
      match result {
        case RequestCancelled =>
          requestCancellationCount := requestCancellationCount + 1;
          running := false;
          return;
        case RequestFailed =>
          requestFailureCount := requestFailureCount + 1;
        case Succeeded =>
          requestSuccessCount := requestSuccessCount + 1;
      }
      if cycleRequestCount >= config.maxRequests {
        FinishAt(if clock.Some? then clock else recovery);
      }
    }

    /** Starts the owner, or keeps the one there is. */
    method Start() returns (started: bool)
      modifies `running
      ensures View() == Step(config, old(View()), Started)
      ensures started == (config.enabled && accepting)
    {
      if !config.enabled || !accepting {
        return false;
      }
      running := true;
      return true;
    }

    method EndOwner()
      requires Enabled(View(), OwnerEnded)
      modifies `running
      ensures View() == Step(config, old(View()), OwnerEnded)
    {
      running := false;
    }

    method Fence()
      modifies `accepting
      ensures View() == Step(config, old(View()), Fenced)
    {
      accepting := false;
    }

    // The rest of quiescing, once the owner's task has ended.
    method Drain()
      requires Enabled(View(), Drained)
      modifies `cycleActive, `cycleRequestCount, `attemptedCandidates
      ensures View() == Step(config, old(View()), Drained)
    {
      ClearCycle();
    }

    method Reopen(now: real)
      requires now == clockFloor
      modifies `lastActivity, `nextCycleDue, `nextRequestDue, `history
      ensures View() == Note(old(View()).(times := OpenTimes(config, now)), Opened(now))
    {
      lastActivity := now;
      nextCycleDue := now + config.interval;
      nextRequestDue := nextCycleDue;
      history := history + [Opened(now)];
    }

    /** None: the clock raised, after the fence was lifted and before anybody was started. */
    method Resume(clock: Clock) returns (resumed: Option<bool>)
      requires tick.Idle? || running
      modifies this
      ensures View() == Step(config, old(View()), Resumed(clock))
      ensures resumed == if old(running) then Some(false) else if clock.None? then None else Some(true)
    {
      if running {
        return Some(false);
      }
      accepting := true;
      if clock.None? {
        return None;
      }
      var now := Now(clock.value);
      Reopen(now);
      ClearCycle();
      var started := Start();
      return Some(true);
    }
  }
}
