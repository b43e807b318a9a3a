/**
When exactly the maintenance scheduler changes what it is doing, in terms of the answers it is given: which
tick starts a cycle, which one looks for a candidate, which selection is submitted, which event ends a cycle,
and when the next one is due.
*/
module MaintenanceSteps {
  import opened Basics
  import opened MaintenanceScan

  // A reading as the scheduler takes it: never before an earlier one.
  function Seen(s: Sched, reading: real): real {
    if s.times.floor <= reading then reading else s.times.floor
  }

  // The time of a reading, or of the second one when the first raises.
  function SeenLast(s: Sched, clock: Clock, recovery: Clock): real
    requires clock.Some? || recovery.Some?
  {
    Seen(s, if clock.Some? then clock.value else recovery.value)
  }

  // The owner begins to tick between two other steps, may work, and can read the clock.
  predicate Ticks(cfg: Config, s: Sched, e: Event) {
    e.TickBegins? && s.phase.Idle? && s.running && cfg.enabled && s.accepting && e.clock.Some?
  }

  predicate QuietSince(cfg: Config, s: Sched, now: real) {
    s.times.lastActivity + cfg.quiet <= now
  }

  /** A dormant scheduler starts a cycle at exactly the ticks that are due, after the quiet time, and answered
      "not busy". */
  lemma CycleBeginsExactly(cfg: Config, s: Sched, e: Event)
    requires cfg.Valid() && s.cycle.Dormant?
    ensures Step(cfg, s, e).cycle.Active? <==>
              && Ticks(cfg, s, e) && s.times.nextCycleDue <= Seen(s, e.clock.value)
              && QuietSince(cfg, s, Seen(s, e.clock.value)) && e.busyStart == Some(false)
    ensures Step(cfg, s, e).cycle.Active? ==>
              && Step(cfg, s, e).cycle == Active(0, {}) && Step(cfg, s, e).lost == 0
              && Step(cfg, s, e).times == s.times.(floor := Seen(s, e.clock.value),
                                                   nextRequestDue := Seen(s, e.clock.value))
              && CycleStarted(Seen(s, e.clock.value)) in Step(cfg, s, e).history
  {
    if Step(cfg, s, e).cycle.Active? {
      var h := s.history + [CycleStarted(Seen(s, e.clock.value))];
      assert h[|s.history|] in h && h[|s.history|] in h + [SelectionBegan];
    }
  }

  /** A candidate is looked for at exactly the ticks of a cycle, running or just started, with budget left, its
      next request due, the quiet time over, and the second check answered "not busy". */
  lemma SelectionBeginsExactly(cfg: Config, s: Sched, e: Event)
    requires cfg.Valid() && s.phase.Idle?
    ensures Step(cfg, s, e).phase.Selecting? <==>
              && Ticks(cfg, s, e) && QuietSince(cfg, s, Seen(s, e.clock.value)) && e.busyNext == Some(false)
              && (if s.cycle.Dormant?
                  then s.times.nextCycleDue <= Seen(s, e.clock.value) && e.busyStart == Some(false)
                  else s.cycle.count < cfg.maxRequests && s.times.nextRequestDue <= Seen(s, e.clock.value))
    ensures Step(cfg, s, e).phase.Selecting? ==> Step(cfg, s, e).phase.generation == s.generation
    ensures !Step(cfg, s, e).phase.Requesting?
  {
  }

  // The answer is a candidate that this cycle has not had.
  predicate IsNew(s: Sched, selection: Selection) {
    s.cycle.Active? && selection.Chosen? && selection.candidate !in s.cycle.attempted
  }

  /** A selection leads to a request exactly when it brings a new candidate, the clock can be read, no activity came
      in between, the quiet time is over, and the last check answered "not busy".  The request is counted, and the
      next one is due one spacing later; the candidate is spent either way. */
  lemma SubmissionIsExact(cfg: Config, s: Sched, e: Event)
    requires s.phase.Selecting? && s.cycle.Active? && e.SelectionEnds?
    ensures var r := Step(cfg, s, e);
            r.phase.Requesting? <==>
              && IsNew(s, e.selection) && e.clock.Some? && s.generation == s.phase.generation
              && QuietSince(cfg, s, Seen(s, e.clock.value)) && e.busy == Some(false)
    ensures var r := Step(cfg, s, e);
            r.phase.Requesting? ==>
              && r.cycle == Active(s.cycle.count + 1, s.cycle.attempted + {e.selection.candidate})
              && r.times == s.times.(floor := Seen(s, e.clock.value),
                                     nextRequestDue := Seen(s, e.clock.value) + cfg.spacing)
              && r.tally == s.tally.(attempts := s.tally.attempts + 1) && r.running == s.running
              && r.history == s.history + [Picked(e.selection.candidate)] + [FoundIdle]
                              + [Submitted(Seen(s, e.clock.value), e.selection.candidate)]
    ensures var r := Step(cfg, s, e);
            IsNew(s, e.selection) && e.clock.Some? && !r.phase.Requesting? ==>
              r == s.(phase := Idle, times := s.times.(floor := Seen(s, e.clock.value)),
                      cycle := Active(s.cycle.count, s.cycle.attempted + {e.selection.candidate}),
                      history := s.history + [Picked(e.selection.candidate)])
  {
  }

  // The event completes the cycle: its budget is spent, it has no candidate left, or an error has escaped.
  predicate Completes(cfg: Config, s: Sched, e: Event) {
    match e
    case TickBegins(clock, recovery, _, _) =>
      s.phase.Idle? && s.running && cfg.enabled && s.accepting
      && (if clock.Some? then s.cycle.Active? && s.cycle.count >= cfg.maxRequests else recovery.Some?)
    case SelectionEnds(selection, clock, recovery, _) =>
      s.phase.Selecting? && s.cycle.Active? && !selection.SelectionCancelled?
      && (if IsNew(s, selection) then clock.None? && recovery.Some? else clock.Some? || recovery.Some?)
    case RequestEnds(result, clock, recovery) =>
      s.phase.Requesting? && s.cycle.Active? && !result.RequestCancelled? && s.cycle.count >= cfg.maxRequests
      && (clock.Some? || recovery.Some?)
    case _ => false
  }

  // The reading a completion goes by.
  function CompletedAt(s: Sched, e: Event): real
    requires e.TickBegins? || e.SelectionEnds? || e.RequestEnds?
    requires e.clock.Some? || e.recovery.Some?
  {
    SeenLast(s, e.clock, e.recovery)
  }

  /** A cycle ends exactly by completion, by draining, or by an accepted resume; and after a completion the next one is
      due one interval later. */
  lemma CycleEndsExactly(cfg: Config, s: Sched, e: Event)
    requires cfg.Valid()
    ensures s.cycle.Active? ==>
              (Step(cfg, s, e).cycle.Dormant? <==>
                 || Completes(cfg, s, e)
                 || (e.Drained? && s.phase.Idle? && !s.accepting && !s.running)
                 || (e.Resumed? && e.clock.Some? && s.phase.Idle? && !s.running))
    ensures Completes(cfg, s, e) ==>
              && Step(cfg, s, e).cycle.Dormant?
              && Step(cfg, s, e).times == Times(CompletedAt(s, e), s.times.lastActivity,
                                                CompletedAt(s, e) + cfg.interval, CompletedAt(s, e) + cfg.interval)
  {
  }

  /** Construction, and a resume that reads the clock, put the next cycle one interval off; a resume also starts the
      owner of an enabled scheduler.  A resume that cannot read it only lifts the fence, and one during the owner's
      lifetime changes nothing. */
  lemma OpeningIsExact(cfg: Config, s: Sched, now: real, clock: Clock)
    ensures Constructed(cfg, now)
         == Sched(true, false, Times(now, now, now + cfg.interval, now + cfg.interval), Dormant, 0, Idle,
                  Tally(0, 0, 0, 0), 0, [Opened(now)])
    ensures var r := Step(cfg, s, Resumed(clock));
            if !s.phase.Idle? || s.running then r == s
            else if clock.None? then r == s.(accepting := true)
            else
              var at := Seen(s, clock.value);
              r == s.(accepting := true, running := cfg.enabled, cycle := Dormant,
                      times := Times(at, at, at + cfg.interval, at + cfg.interval), history := s.history + [Opened(at)])
  {
  }

  /** A tick that neither starts a cycle, nor looks for a candidate, nor completes the cycle only notes the time. */
  lemma OtherTicksWait(cfg: Config, s: Sched, e: Event)
    requires cfg.Valid() && e.TickBegins? && !Completes(cfg, s, e) && !KillsOwner(cfg, s, e)
    ensures var r := Step(cfg, s, e);
            r.phase == s.phase && r.cycle.Active? == s.cycle.Active? ==>
              r == if Ticks(cfg, s, e) then s.(times := s.times.(floor := Seen(s, e.clock.value))) else s
  {
  }

  /** A request's end is counted by its result; unless it completes the cycle or ends the owner nothing else changes. */
  lemma RequestEndIsExact(cfg: Config, s: Sched, e: Event)
    requires e.RequestEnds? && s.phase.Requesting? && s.cycle.Active?
    ensures var r := Step(cfg, s, e);
            && r.phase.Idle? && r.tally.attempts == s.tally.attempts && r.history == s.history
            && r.tally.successes == s.tally.successes + (if e.result.Succeeded? then 1 else 0)
            && r.tally.failures == s.tally.failures + (if e.result.RequestFailed? then 1 else 0)
            && r.tally.cancellations == s.tally.cancellations + (if e.result.RequestCancelled? then 1 else 0)
            && (!Completes(cfg, s, e) ==> r.cycle == s.cycle && r.times == s.times)
  {
  }

  /** A fence stops new work and nothing else; draining clears the cycle behind it once the owner has ended. */
  lemma FenceAndDrainAreExact(cfg: Config, s: Sched)
    ensures Step(cfg, s, Fenced) == s.(accepting := false)
    ensures Step(cfg, s, Drained)
         == if s.phase.Idle? && !s.accepting && !s.running then s.(cycle := Dormant) else s
    ensures Step(cfg, s, Started) == s.(running := s.running || (cfg.enabled && s.accepting))
  {
  }

  // Who may end the owner's task: a cancellation, or a clock that fails twice where the runner completes a cycle.
  predicate KillsOwner(cfg: Config, s: Sched, e: Event) {
    match e
    case TickBegins(clock, recovery, _, _) =>
      s.phase.Idle? && s.running && cfg.enabled && s.accepting
      && clock.None? && recovery.None?
    case SelectionEnds(selection, clock, recovery, _) =>
      s.phase.Selecting? && s.cycle.Active?
      && (selection.SelectionCancelled? || (clock.None? && recovery.None?))
    case RequestEnds(result, clock, recovery) =>
      s.phase.Requesting? && s.cycle.Active?
      && (result.RequestCancelled? || (s.cycle.count >= cfg.maxRequests && clock.None? && recovery.None?))
    case OwnerEnded => s.phase.Idle?
    case _ => false
  }

  /** The owner's task ends exactly then, and starts exactly by a start or an accepted resume of an enabled
      scheduler. */
  lemma OwnerIsExact(cfg: Config, s: Sched, e: Event)
    requires cfg.Valid()
    ensures s.running ==> (!Step(cfg, s, e).running <==> KillsOwner(cfg, s, e))
    ensures !s.running ==>
              (Step(cfg, s, e).running <==>
                 && cfg.enabled
                 && ((e.Started? && s.accepting) || (e.Resumed? && e.clock.Some? && s.phase.Idle?)))
  {
  }

  /** Activity is noted at the time it is seen and makes the pending selection stale; nothing else does. */
  lemma ActivityIsExact(cfg: Config, s: Sched, e: Event)
    requires cfg.Valid()
    ensures Step(cfg, s, e).generation == s.generation + (if e.ActivityRecorded? && e.clock.Some? then 1 else 0)
    ensures e.ActivityRecorded? && e.clock.Some? ==>
              var at := Seen(s, e.clock.value);
              Step(cfg, s, e)
              == s.(generation := s.generation + 1, history := s.history + [Activity(at)],
                    times := s.times.(floor := at,
                                      lastActivity := if s.times.lastActivity <= at then at
                                                      else s.times.lastActivity))
    ensures !e.ActivityRecorded? && !e.Resumed? ==> Step(cfg, s, e).times.lastActivity == s.times.lastActivity
  {
  }
}
