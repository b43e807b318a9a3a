/**
The idle-maintenance scheduler: cycles, a per-cycle request budget, request spacing, quiet windows,
fencing, and a clock that is never allowed to run backwards.

Each function below is what happens between two awaits of the single background owner; foreground
activity, fencing and resuming may come between any two of them.  Time is a real number, and a clock
reading of None stands for one that the scheduler rejects by raising.
*/
module MaintenanceScan {
  import opened Basics

  type Candidate = string
  type Clock = Option<real>
  // None: the foreground check itself failed.
  type Busy = Option<bool>

  datatype Config = Config(enabled: bool, interval: real, quiet: real, spacing: real, maxRequests: nat) {
    predicate Valid() {
      interval > 0.0 && quiet > 0.0 && spacing > 0.0 && maxRequests >= 1
    }

    function MinGap(): real {
      if spacing < interval then spacing else interval
    }
  }

  // What can be observed from outside, in order.
  datatype Mark =
    | Opened(time: real)               // constructed or resumed
    | Activity(time: real)
    | CycleStarted(time: real)
    | SelectionBegan
    | Picked(candidate: Candidate)
    | FoundIdle                        // the foreground check answered "not busy"
    | Submitted(time: real, candidate: Candidate)

  datatype Times = Times(floor: real, lastActivity: real, nextCycleDue: real, nextRequestDue: real)

  datatype Cycle = Dormant | Active(count: nat, attempted: set<Candidate>)

  datatype Phase = Idle | Selecting(generation: nat) | Requesting

  datatype Tally = Tally(attempts: nat, successes: nat, failures: nat, cancellations: nat)

  datatype Sched = Sched(
    accepting: bool,
    running: bool,                     // the owner's task exists and has not ended
    times: Times, cycle: Cycle, generation: nat, phase: Phase, tally: Tally,
    lost: nat,                         // selections of the latest cycle that ended the owner's task
    history: seq<Mark>)

  datatype Selection = Chosen(candidate: Candidate) | NoneLeft | SelectionFailed | SelectionCancelled

  datatype Result = Succeeded | RequestFailed | RequestCancelled

  datatype Event =
    | ActivityRecorded(clock: Clock)
    | TickBegins(clock: Clock, recovery: Clock, busyStart: Busy, busyNext: Busy)
    | SelectionEnds(selection: Selection, clock: Clock, recovery: Clock, busy: Busy)
    | RequestEnds(result: Result, clock: Clock, recovery: Clock)
    | Started
    | OwnerEnded                       // the runner leaves its loop, or is cancelled between ticks
    | Fenced
    | Drained
    | Resumed(clock: Clock)

  function Floor(s: Sched, reading: real): real {
    if reading < s.times.floor then s.times.floor else reading
  }

  function At(s: Sched, now: real): Sched {
    s.(times := s.times.(floor := now))
  }

  function Note(s: Sched, m: Mark): Sched {
    s.(history := s.history + [m])
  }

  function OpenTimes(cfg: Config, now: real): Times {
    Times(now, now, now + cfg.interval, now + cfg.interval)
  }

  function Constructed(cfg: Config, now: real): Sched {
    Sched(true, false, OpenTimes(cfg, now), Dormant, 0, Idle, Tally(0, 0, 0, 0), 0, [Opened(now)])
  }

  predicate Recent(cfg: Config, s: Sched) {
    s.times.floor - s.times.lastActivity < cfg.quiet
  }

  // At s's current time.
  function StartCycle(s: Sched): Sched {
    Note(s.(cycle := Active(0, {}), times := s.times.(nextRequestDue := s.times.floor), lost := 0),
         CycleStarted(s.times.floor))
  }

  function CompleteCycle(cfg: Config, s: Sched): Sched {
    var due := s.times.floor + cfg.interval;
    s.(cycle := Dormant, times := s.times.(nextCycleDue := due, nextRequestDue := due))
  }

  // A clock that fails here fails in the runner, and ends it.
  function CompleteAt(cfg: Config, s: Sched, clock: Clock): Sched {
    if clock.Some? then CompleteCycle(cfg, At(s, Floor(s, clock.value))) else s.(running := false)
  }

  // The runner completes the cycle after an escaped error, unless the clock fails once more.
  function FirstValid(clock: Clock, recovery: Clock): Clock {
    if clock.Some? then clock else recovery
  }

  function OnActivity(s: Sched, clock: Clock): Sched {
    if clock.None? then s
    else
      var now := Floor(s, clock.value);
      var latest := if s.times.lastActivity < now then now else s.times.lastActivity;
      Note(s.(times := s.times.(floor := now, lastActivity := latest), generation := s.generation + 1), Activity(now))
  }

  predicate MayStart(cfg: Config, s: Sched, busy: Busy) {
    s.times.nextCycleDue <= s.times.floor && !Recent(cfg, s) && busy == Some(false)
  }

  predicate MaySelect(cfg: Config, s: Sched, busy: Busy) {
    s.times.nextRequestDue <= s.times.floor && !Recent(cfg, s) && busy == Some(false)
  }

  // An active cycle looks for its next candidate, or ends because its budget is spent.
  function Proceed(cfg: Config, s: Sched, busy: Busy): Sched
    requires s.cycle.Active?
  {
    if s.cycle.count >= cfg.maxRequests then CompleteCycle(cfg, s)
    else if MaySelect(cfg, s, busy) then Note(s.(phase := Selecting(s.generation)), SelectionBegan)
    else s
  }

  function OnTick(cfg: Config, s: Sched, clock: Clock, recovery: Clock, busyStart: Busy, busyNext: Busy): Sched {
    if !cfg.enabled || !s.accepting then s
    else if clock.None? then CompleteAt(cfg, s, recovery)
    else
      var r := At(s, Floor(s, clock.value));
      if r.cycle.Active? then Proceed(cfg, r, busyNext)
      else if MayStart(cfg, r, busyStart) then Proceed(cfg, StartCycle(r), busyNext)
      else r
  }

  predicate MaySubmit(cfg: Config, s: Sched, generation: nat, busy: Busy) {
    s.generation == generation && !Recent(cfg, s) && busy == Some(false)
  }

  // The last gate: no await between it and the submission.
  function Submit(cfg: Config, s: Sched, c: Candidate, generation: nat, busy: Busy): Sched
    requires s.cycle.Active?
  {
    if !MaySubmit(cfg, s, generation, busy) then s
    else
      var now := s.times.floor;
      var r := s.(phase := Requesting, cycle := s.cycle.(count := s.cycle.count + 1),
                  times := s.times.(nextRequestDue := now + cfg.spacing),
                  tally := s.tally.(attempts := s.tally.attempts + 1));
      Note(Note(r, FoundIdle), Submitted(now, c))
  }

  function Pick(s: Sched, c: Candidate): Sched
    requires s.cycle.Active?
  {
    Note(s.(cycle := s.cycle.(attempted := s.cycle.attempted + {c})), Picked(c))
  }

  // A new candidate stays excluded for the rest of the cycle, whatever the late gate says.
  function TryCandidate(cfg: Config, s: Sched, c: Candidate, generation: nat,
                        clock: Clock, recovery: Clock, busy: Busy): Sched
    requires s.cycle.Active?
  {
    var picked := Pick(s, c);
    if clock.None? then CompleteAt(cfg, picked, recovery)
    else Submit(cfg, At(picked, Floor(s, clock.value)), c, generation, busy)
  }

  predicate BringsNew(s: Sched, selection: Selection)
    requires s.cycle.Active?
  {
    selection.Chosen? && selection.candidate !in s.cycle.attempted
  }

  // A cancellation, or a clock that fails twice, ends the owner's task and leaves the cycle as it is.
  function OnSelection(cfg: Config, s: Sched, selection: Selection, clock: Clock, recovery: Clock, busy: Busy): Sched
    requires s.phase.Selecting? && s.cycle.Active?
  {
    var idle := s.(phase := Idle);
    if !selection.SelectionCancelled? && BringsNew(s, selection)
    then TryCandidate(cfg, idle, selection.candidate, s.phase.generation, clock, recovery, busy)
    else if selection.SelectionCancelled? || FirstValid(clock, recovery).None?
    then idle.(lost := s.lost + 1, running := false)
    else CompleteAt(cfg, idle, FirstValid(clock, recovery))
  }

  function Tallied(t: Tally, r: Result): Tally {
    match r
    case Succeeded => t.(successes := t.successes + 1)
    case RequestFailed => t.(failures := t.failures + 1)
    case RequestCancelled => t.(cancellations := t.cancellations + 1)
  }

  function OnRequestEnd(cfg: Config, s: Sched, result: Result, clock: Clock, recovery: Clock): Sched
    requires s.cycle.Active?
  {
    var r := s.(phase := Idle, tally := Tallied(s.tally, result));
    if result.RequestCancelled? then r.(running := false)
    else if s.cycle.count >= cfg.maxRequests then CompleteAt(cfg, r, FirstValid(clock, recovery))
    else r
  }

  function OnStart(cfg: Config, s: Sched): Sched {
    if cfg.enabled && s.accepting then s.(running := true) else s
  }

  // The fence is lifted before the clock is read: a rejected reading leaves the old due times, and starts nobody.
  function OnResume(cfg: Config, s: Sched, clock: Clock): Sched {
    if clock.None? then s.(accepting := true)
    else
      var now := Floor(s, clock.value);
      Note(OnStart(cfg, s.(accepting := true, times := OpenTimes(cfg, now), cycle := Dormant)), Opened(now))
  }

  predicate Enabled(s: Sched, e: Event) {
    match e
    case TickBegins(_, _, _, _) => s.phase.Idle? && s.running
    case SelectionEnds(_, _, _, _) => s.phase.Selecting? && s.cycle.Active?
    case RequestEnds(_, _, _) => s.phase.Requesting? && s.cycle.Active?
    case OwnerEnded => s.phase.Idle?
    case Drained => s.phase.Idle? && !s.accepting && !s.running
    case Resumed(_) => s.phase.Idle? && !s.running
    case _ => true
  }

  /** One step; an event that the single owner cannot produce in this phase changes nothing.  Only the
      owner ticks.  Draining happens only behind the fence, and draining and resuming only once the owner's
      task has ended. */
  function Step(cfg: Config, s: Sched, e: Event): Sched {
    if !Enabled(s, e) then s
    else
      match e
      case ActivityRecorded(clock) => OnActivity(s, clock)
      case TickBegins(clock, recovery, b0, b1) => OnTick(cfg, s, clock, recovery, b0, b1)
      case SelectionEnds(selection, clock, recovery, busy) => OnSelection(cfg, s, selection, clock, recovery, busy)
      case RequestEnds(result, clock, recovery) => OnRequestEnd(cfg, s, result, clock, recovery)
      case Started => OnStart(cfg, s)
      case OwnerEnded => s.(running := false)
      case Fenced => s.(accepting := false)
      case Drained => s.(cycle := Dormant)
      case Resumed(clock) => OnResume(cfg, s, clock)
  }

  function Run(cfg: Config, s: Sched, events: seq<Event>): Sched
    decreases |events|
  {
    if events == [] then s else Run(cfg, Step(cfg, s, events[0]), events[1..])
  }
}
