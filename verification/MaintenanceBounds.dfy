/**
What every run of the maintenance scheduler keeps besides its rate: the gates in front of each request,
the exclusion of tried candidates and the bookkeeping of the counters.
*/
module MaintenanceBounds {
  import opened Basics
  import opened MaintenanceScan
  import opened MaintenanceRate

  // ---------------------------------------------------------------- quiet time and opening

  // What a request at j owes to the activity and the openings before it.
  ghost predicate Waited(cfg: Config, h: seq<Mark>, j: int)
    requires 0 <= j < |h|
  {
    h[j].Submitted? ==>
      forall i | 0 <= i < j ::
        && (h[i].Activity? ==> h[i].time + cfg.quiet <= h[j].time)
        && (h[i].Opened? ==> h[i].time + cfg.interval <= h[j].time)
  }

  ghost predicate Wait(cfg: Config, t: Times, c: Cycle, h: seq<Mark>) {
    && t.lastActivity <= t.floor
    && t.nextCycleDue <= t.floor + cfg.interval
    && (c.Active? ==> t.nextCycleDue <= t.floor)
    && (forall i | 0 <= i < |h| ::
          && (h[i].Activity? ==> h[i].time <= t.lastActivity)
          && (h[i].Opened? ==> h[i].time + cfg.interval <= t.nextCycleDue))
    && forall j | 0 <= j < |h| :: Waited(cfg, h, j)
  }

  ghost predicate WaitInv(cfg: Config, s: Sched) {
    Wait(cfg, s.times, s.cycle, s.history)
  }

  lemma NoteKeepsWait(cfg: Config, t: Times, c: Cycle, h: seq<Mark>, m: Mark)
    requires Wait(cfg, t, c, h)
    requires m.Activity? ==> m.time <= t.lastActivity
    requires m.Opened? ==> m.time + cfg.interval <= t.nextCycleDue
    requires m.Submitted? ==> c.Active? && m.time == t.floor && t.floor - t.lastActivity >= cfg.quiet
    ensures Wait(cfg, t, c, h + [m])
  {
    var longer := h + [m];
    forall j | 0 <= j < |longer|
      ensures Waited(cfg, longer, j)
    {
      if j < |h| {
        assert Waited(cfg, h, j);
      }
    }
  }

  lemma CompletionKeepsWait(cfg: Config, s: Sched, clock: Clock)
    requires cfg.Valid() && WaitInv(cfg, s)
    ensures WaitInv(cfg, CompleteAt(cfg, s, clock))
  {
  }

  lemma ProceedKeepsWait(cfg: Config, s: Sched, busy: Busy)
    requires cfg.Valid() && WaitInv(cfg, s) && s.cycle.Active?
    ensures WaitInv(cfg, Proceed(cfg, s, busy))
  {
    NoteKeepsWait(cfg, s.times, s.cycle, s.history, SelectionBegan);
  }

  lemma StartKeepsWait(cfg: Config, s: Sched)
    requires WaitInv(cfg, s) && s.times.nextCycleDue <= s.times.floor
    ensures WaitInv(cfg, StartCycle(s))
  {
    NoteKeepsWait(cfg, s.times, s.cycle, s.history, CycleStarted(s.times.floor));
  }

  lemma TickKeepsWait(cfg: Config, s: Sched, clock: Clock, recovery: Clock, b0: Busy, b1: Busy)
    requires cfg.Valid() && WaitInv(cfg, s)
    ensures WaitInv(cfg, OnTick(cfg, s, clock, recovery, b0, b1))
  {
    CompletionKeepsWait(cfg, s, recovery);
    if clock.Some? {
      var r := At(s, Floor(s, clock.value));
      if r.cycle.Active? {
        ProceedKeepsWait(cfg, r, b1);
      } else if MayStart(cfg, r, b0) {
        StartKeepsWait(cfg, r);
        ProceedKeepsWait(cfg, StartCycle(r), b1);
      }
    }
  }

  lemma SubmitKeepsWait(cfg: Config, s: Sched, c: Candidate, generation: nat, busy: Busy)
    requires WaitInv(cfg, s) && s.cycle.Active?
    ensures WaitInv(cfg, Submit(cfg, s, c, generation, busy))
  {
    NoteKeepsWait(cfg, s.times, s.cycle, s.history, FoundIdle);
    if !Recent(cfg, s) {
      NoteKeepsWait(cfg, s.times, s.cycle, s.history + [FoundIdle], Submitted(s.times.floor, c));
    }
  }

  lemma CandidateKeepsWait(cfg: Config, s: Sched, c: Candidate, generation: nat, clock: Clock, recovery: Clock,
                          busy: Busy)
    requires cfg.Valid() && WaitInv(cfg, s) && s.cycle.Active?
    ensures WaitInv(cfg, TryCandidate(cfg, s, c, generation, clock, recovery, busy))
  {
    var picked := Pick(s, c);
    NoteKeepsWait(cfg, s.times, s.cycle, s.history, Picked(c));
    if clock.None? {
      CompletionKeepsWait(cfg, picked, recovery);
    } else {
      SubmitKeepsWait(cfg, At(picked, Floor(s, clock.value)), c, generation, busy);
    }
  }

  lemma SelectionKeepsWait(cfg: Config, s: Sched, selection: Selection, clock: Clock, recovery: Clock, busy: Busy)
    requires cfg.Valid() && WaitInv(cfg, s) && s.cycle.Active? && s.phase.Selecting?
    ensures WaitInv(cfg, OnSelection(cfg, s, selection, clock, recovery, busy))
  {
    var idle := s.(phase := Idle);
    if !selection.SelectionCancelled? && BringsNew(s, selection) {
      CandidateKeepsWait(cfg, idle, selection.candidate, s.phase.generation, clock, recovery, busy);
    } else {
      CompletionKeepsWait(cfg, idle, FirstValid(clock, recovery));
    }
  }

  lemma RequestEndKeepsWait(cfg: Config, s: Sched, result: Result, clock: Clock, recovery: Clock)
    requires cfg.Valid() && WaitInv(cfg, s) && s.cycle.Active?
    ensures WaitInv(cfg, OnRequestEnd(cfg, s, result, clock, recovery))
  {
  }

  lemma ActivityKeepsWait(cfg: Config, s: Sched, clock: Clock)
    requires cfg.Valid() && WaitInv(cfg, s)
    ensures WaitInv(cfg, OnActivity(s, clock))
  {
    if clock.Some? {
      NoteKeepsWait(cfg, OnActivity(s, clock).times, s.cycle, s.history, Activity(Floor(s, clock.value)));
    }
  }

  lemma ResumeKeepsWait(cfg: Config, s: Sched, clock: Clock)
    requires cfg.Valid() && WaitInv(cfg, s)
    ensures WaitInv(cfg, OnResume(cfg, s, clock))
  {
    if clock.Some? {
      NoteKeepsWait(cfg, OpenTimes(cfg, Floor(s, clock.value)), Dormant, s.history, Opened(Floor(s, clock.value)));
    }
  }

  lemma StepKeepsWait(cfg: Config, s: Sched, e: Event)
    requires cfg.Valid() && WaitInv(cfg, s)
    ensures WaitInv(cfg, Step(cfg, s, e))
  {
    if Enabled(s, e) {
      match e {
        case ActivityRecorded(clock) => ActivityKeepsWait(cfg, s, clock);
        case TickBegins(clock, recovery, b0, b1) => TickKeepsWait(cfg, s, clock, recovery, b0, b1);
        case SelectionEnds(selection, clock, recovery, busy) =>
          SelectionKeepsWait(cfg, s, selection, clock, recovery, busy);
        case RequestEnds(result, clock, recovery) => RequestEndKeepsWait(cfg, s, result, clock, recovery);
        case Resumed(clock) => ResumeKeepsWait(cfg, s, clock);
        case _ =>
      }
    }
  }

  // ---------------------------------------------------------------- gates

  /** A request at j follows, with nothing in between, a selection that brought its candidate and a
      foreground check that found the radio idle. */
  ghost predicate Gated(h: seq<Mark>, j: int)
    requires 0 <= j < |h|
  {
    h[j].Submitted? ==>
      && 3 <= j && h[j - 1] == FoundIdle && h[j - 2] == Picked(h[j].candidate) && h[j - 3] == SelectionBegan
  }

  ghost predicate AllGated(h: seq<Mark>) {
    forall j | 0 <= j < |h| :: Gated(h, j)
  }

  // No activity since the pending selection began.
  ghost predicate Undisturbed(s: Sched) {
    s.phase.Selecting? && s.phase.generation == s.generation ==>
      |s.history| > 0 && s.history[|s.history| - 1] == SelectionBegan
  }

  ghost predicate GateInv(cfg: Config, s: Sched) {
    AllGated(s.history) && Undisturbed(s) && PhaseInv(cfg, s)
  }

  lemma NoteKeepsGates(h: seq<Mark>, m: Mark)
    requires AllGated(h) && !m.Submitted?
    ensures AllGated(h + [m])
  {
    forall j | 0 <= j < |h + [m]|
      ensures Gated(h + [m], j)
    {
      if j < |h| {
        assert Gated(h, j);
      }
    }
  }

  lemma SubmittedKeepsGates(h: seq<Mark>, c: Candidate, now: real)
    requires AllGated(h) && |h| > 0 && h[|h| - 1] == SelectionBegan
    ensures AllGated(h + [Picked(c)] + [FoundIdle] + [Submitted(now, c)])
  {
    NoteKeepsGates(h, Picked(c));
    NoteKeepsGates(h + [Picked(c)], FoundIdle);
    var before := h + [Picked(c)] + [FoundIdle];
    forall j | 0 <= j < |before + [Submitted(now, c)]|
      ensures Gated(before + [Submitted(now, c)], j)
    {
      if j < |before| {
        assert Gated(before, j);
      }
    }
  }

  lemma CandidateKeepsGates(cfg: Config, s: Sched, c: Candidate, generation: nat, clock: Clock,
                          recovery: Clock, busy: Busy)
    requires AllGated(s.history) && s.cycle.Active? && s.phase.Idle? && PhaseInv(cfg, s) && s.running
    requires generation == s.generation ==> |s.history| > 0 && s.history[|s.history| - 1] == SelectionBegan
    ensures var r := TryCandidate(cfg, s, c, generation, clock, recovery, busy);
            AllGated(r.history) && !r.phase.Selecting? && PhaseInv(cfg, r)
  {
    NoteKeepsGates(s.history, Picked(c));
    if generation == s.generation && clock.Some? {
      SubmittedKeepsGates(s.history, c, Floor(s, clock.value));
    }
  }

  lemma SelectionKeepsGates(cfg: Config, s: Sched, selection: Selection, clock: Clock, recovery: Clock, busy: Busy)
    requires GateInv(cfg, s) && s.cycle.Active? && s.phase.Selecting?
    ensures GateInv(cfg, OnSelection(cfg, s, selection, clock, recovery, busy))
  {
    if !selection.SelectionCancelled? && BringsNew(s, selection) {
      CandidateKeepsGates(cfg, s.(phase := Idle), selection.candidate, s.phase.generation, clock, recovery, busy);
    }
  }

  lemma ActivityKeepsGates(cfg: Config, s: Sched, clock: Clock)
    requires GateInv(cfg, s)
    ensures GateInv(cfg, OnActivity(s, clock))
  {
    if clock.Some? {
      NoteKeepsGates(s.history, Activity(Floor(s, clock.value)));
    }
  }

  lemma ProceedKeepsGates(cfg: Config, s: Sched, busy: Busy)
    requires GateInv(cfg, s) && s.cycle.Active? && s.phase.Idle? && s.running
    ensures GateInv(cfg, Proceed(cfg, s, busy))
  {
    NoteKeepsGates(s.history, SelectionBegan);
  }

  lemma TickKeepsGates(cfg: Config, s: Sched, clock: Clock, recovery: Clock, b0: Busy, b1: Busy)
    requires GateInv(cfg, s) && s.phase.Idle? && s.running
    ensures GateInv(cfg, OnTick(cfg, s, clock, recovery, b0, b1))
  {
    if clock.Some? {
      var r := At(s, Floor(s, clock.value));
      if r.cycle.Active? {
        ProceedKeepsGates(cfg, r, b1);
      } else {
        NoteKeepsGates(r.history, CycleStarted(r.times.floor));
        ProceedKeepsGates(cfg, StartCycle(r), b1);
      }
    }
  }

  lemma StepKeepsGates(cfg: Config, s: Sched, e: Event)
    requires GateInv(cfg, s)
    ensures GateInv(cfg, Step(cfg, s, e))
  {
    if Enabled(s, e) {
      match e {
        case ActivityRecorded(clock) => ActivityKeepsGates(cfg, s, clock);
        case TickBegins(clock, recovery, b0, b1) => TickKeepsGates(cfg, s, clock, recovery, b0, b1);
        case SelectionEnds(selection, clock, recovery, busy) =>
          SelectionKeepsGates(cfg, s, selection, clock, recovery, busy);
        case Resumed(clock) => if clock.Some? { NoteKeepsGates(s.history, Opened(Floor(s, clock.value))); }
        case _ =>
      }
    }
  }

  // ---------------------------------------------------------------- cycles

  // Candidates picked since the latest cycle started.
  function PickedSince(h: seq<Mark>): set<Candidate> {
    if h == [] then {}
    else
      match h[|h| - 1]
      case CycleStarted(_) => {}
      case Picked(c) => PickedSince(h[..|h| - 1]) + {c}
      case _ => PickedSince(h[..|h| - 1])
  }

  function SelectionsSince(h: seq<Mark>): nat {
    if h == [] then 0
    else
      match h[|h| - 1]
      case CycleStarted(_) => 0
      case SelectionBegan => SelectionsSince(h[..|h| - 1]) + 1
      case _ => SelectionsSince(h[..|h| - 1])
  }

  // No candidate was picked twice in one cycle.
  predicate NoRepeats(h: seq<Mark>) {
    h == [] ||
    (var front, last := h[..|h| - 1], h[|h| - 1];
     NoRepeats(front) && (last.Picked? ==> last.candidate !in PickedSince(front)))
  }

  ghost predicate CycleInv(s: Sched) {
    && NoRepeats(s.history)
    && (s.phase.Selecting? || s.phase.Requesting? ==> s.cycle.Active?)
    && match s.cycle
       case Active(_, attempted) =>
         && PickedSince(s.history) == attempted
         && SelectionsSince(s.history) == |attempted| + s.lost + (if s.phase.Selecting? then 1 else 0)
       case Dormant => SelectionsSince(s.history) <= |PickedSince(s.history)| + s.lost + 1
  }

  lemma SinceAppend(h: seq<Mark>, m: Mark)
    ensures PickedSince(h + [m])
            == (if m.CycleStarted? then {} else PickedSince(h) + if m.Picked? then {m.candidate} else {})
    ensures SelectionsSince(h + [m])
            == (if m.CycleStarted? then 0 else SelectionsSince(h) + if m.SelectionBegan? then 1 else 0)
    ensures NoRepeats(h + [m]) == (NoRepeats(h) && (m.Picked? ==> m.candidate !in PickedSince(h)))
  {
  }

  lemma ProceedKeepsCycle(cfg: Config, s: Sched, busy: Busy)
    requires CycleInv(s) && s.cycle.Active? && s.phase.Idle?
    ensures CycleInv(Proceed(cfg, s, busy))
  {
  }

  lemma TickKeepsCycle(cfg: Config, s: Sched, clock: Clock, recovery: Clock, b0: Busy, b1: Busy)
    requires CycleInv(s) && s.phase.Idle?
    ensures CycleInv(OnTick(cfg, s, clock, recovery, b0, b1))
  {
    if clock.Some? {
      var r := At(s, Floor(s, clock.value));
      if r.cycle.Active? {
        ProceedKeepsCycle(cfg, r, b1);
      } else {
        SinceAppend(r.history, CycleStarted(r.times.floor));
        ProceedKeepsCycle(cfg, StartCycle(r), b1);
      }
    }
  }

  lemma SubmitKeepsCycle(cfg: Config, s: Sched, c: Candidate, generation: nat, busy: Busy)
    requires CycleInv(s) && s.cycle.Active? && s.phase.Idle?
    ensures CycleInv(Submit(cfg, s, c, generation, busy))
  {
    SinceAppend(s.history, FoundIdle);
    SinceAppend(s.history + [FoundIdle], Submitted(s.times.floor, c));
  }

  // s is the state in which the selection was still pending.
  lemma CandidateKeepsCycle(cfg: Config, s: Sched, c: Candidate, generation: nat, clock: Clock,
                          recovery: Clock, busy: Busy)
    requires CycleInv(s) && s.cycle.Active? && s.phase.Selecting? && c !in s.cycle.attempted
    ensures CycleInv(TryCandidate(cfg, s.(phase := Idle), c, generation, clock, recovery, busy))
  {
    SinceAppend(s.history, Picked(c));
    var picked := Pick(s.(phase := Idle), c);
    assert CycleInv(picked);
    if clock.Some? {
      SubmitKeepsCycle(cfg, At(picked, Floor(s, clock.value)), c, generation, busy);
    }
  }

  lemma SelectionKeepsCycle(cfg: Config, s: Sched, selection: Selection, clock: Clock, recovery: Clock, busy: Busy)
    requires CycleInv(s) && s.cycle.Active? && s.phase.Selecting?
    ensures CycleInv(OnSelection(cfg, s, selection, clock, recovery, busy))
  {
    if !selection.SelectionCancelled? && BringsNew(s, selection) {
      CandidateKeepsCycle(cfg, s, selection.candidate, s.phase.generation, clock, recovery, busy);
    }
  }

  lemma RequestEndKeepsCycle(cfg: Config, s: Sched, result: Result, clock: Clock, recovery: Clock)
    requires CycleInv(s) && s.cycle.Active? && s.phase.Requesting?
    ensures CycleInv(OnRequestEnd(cfg, s, result, clock, recovery))
  {
  }

  lemma ActivityKeepsCycle(s: Sched, clock: Clock)
    requires CycleInv(s)
    ensures CycleInv(OnActivity(s, clock))
  {
    if clock.Some? {
      SinceAppend(s.history, Activity(Floor(s, clock.value)));
    }
  }

  lemma ResumeKeepsCycle(cfg: Config, s: Sched, clock: Clock)
    requires CycleInv(s) && s.phase.Idle?
    ensures CycleInv(OnResume(cfg, s, clock))
  {
    if clock.Some? {
      SinceAppend(s.history, Opened(Floor(s, clock.value)));
    }
  }

  // Starting, ending, fencing and draining leave the history alone.
  lemma ControlKeepsCycle(cfg: Config, s: Sched, e: Event)
    requires CycleInv(s) && Enabled(s, e) && (e.Started? || e.OwnerEnded? || e.Fenced? || e.Drained?)
    ensures CycleInv(Step(cfg, s, e))
  {
  }

  lemma StepKeepsCycle(cfg: Config, s: Sched, e: Event)
    requires CycleInv(s)
    ensures CycleInv(Step(cfg, s, e))
  {
    if Enabled(s, e) {
      match e {
        case ActivityRecorded(clock) => ActivityKeepsCycle(s, clock);
        case TickBegins(clock, recovery, b0, b1) => TickKeepsCycle(cfg, s, clock, recovery, b0, b1);
        case SelectionEnds(selection, clock, recovery, busy) =>
          SelectionKeepsCycle(cfg, s, selection, clock, recovery, busy);
        case RequestEnds(result, clock, recovery) => RequestEndKeepsCycle(cfg, s, result, clock, recovery);
        case Resumed(clock) => ResumeKeepsCycle(cfg, s, clock);
        case _ => ControlKeepsCycle(cfg, s, e);
      }
    }
  }

  lemma {:induction false} PickedStays(h: seq<Mark>, i: int)
    requires 0 <= i < |h| && h[i].Picked?
    requires forall k | i < k < |h| :: !h[k].CycleStarted?
    ensures h[i].candidate in PickedSince(h)
  {
    if i < |h| - 1 {
      PickedStays(h[..|h| - 1], i);
    }
  }

  lemma {:induction false} RepeatNeedsNewCycle(h: seq<Mark>, i: int, j: int)
    requires NoRepeats(h)
    requires 0 <= i < j < |h| && h[i].Picked? && h[j] == h[i]
    ensures exists k | i < k < j :: h[k].CycleStarted?
  {
    if j < |h| - 1 {
      var front := h[..|h| - 1];
      RepeatNeedsNewCycle(front, i, j);
      var k :| i < k < j && front[k].CycleStarted?;
      assert h[k].CycleStarted?;
    } else if forall k | i < k < j :: !h[k].CycleStarted? {
      PickedStays(h[..j], i);
    }
  }

  // ---------------------------------------------------------------- counters

  // Every request is accounted for once, the one in flight included.
  predicate Balanced(s: Sched) {
    s.tally.attempts ==
    s.tally.successes + s.tally.failures + s.tally.cancellations + if s.phase.Requesting? then 1 else 0
  }

  lemma RequestEndKeepsBalance(cfg: Config, s: Sched, result: Result, clock: Clock, recovery: Clock)
    requires Balanced(s) && s.cycle.Active? && s.phase.Requesting?
    ensures Balanced(OnRequestEnd(cfg, s, result, clock, recovery))
  {
  }

  lemma TickKeepsBalance(cfg: Config, s: Sched, clock: Clock, recovery: Clock, b0: Busy, b1: Busy)
    requires Balanced(s) && s.phase.Idle?
    ensures Balanced(OnTick(cfg, s, clock, recovery, b0, b1))
  {
  }

  lemma StepKeepsBalance(cfg: Config, s: Sched, e: Event)
    requires Balanced(s)
    ensures Balanced(Step(cfg, s, e))
  {
    if Enabled(s, e) {
      match e {
        case TickBegins(clock, recovery, b0, b1) => TickKeepsBalance(cfg, s, clock, recovery, b0, b1);
        case RequestEnds(result, clock, recovery) => RequestEndKeepsBalance(cfg, s, result, clock, recovery);
        case _ =>
      }
    }
  }

  ghost predicate Inv(cfg: Config, s: Sched) {
    WaitInv(cfg, s) && GateInv(cfg, s) && CycleInv(s) && Balanced(s)
  }

  lemma {:induction false} RunKeepsInv(cfg: Config, s: Sched, events: seq<Event>)
    requires cfg.Valid() && Inv(cfg, s)
    ensures Inv(cfg, Run(cfg, s, events))
    decreases |events|
  {
    if events != [] {
      StepKeepsWait(cfg, s, events[0]);
      StepKeepsGates(cfg, s, events[0]);
      StepKeepsPhase(cfg, s, events[0]);
      StepKeepsCycle(cfg, s, events[0]);
      StepKeepsBalance(cfg, s, events[0]);
      RunKeepsInv(cfg, Step(cfg, s, events[0]), events[1..]);
    }
  }

  lemma ConstructedInv(cfg: Config, now: real)
    requires cfg.Valid()
    ensures Inv(cfg, Constructed(cfg, now))
  {
  }

  /** Each request, in every run: it follows an idle check and a selection that no activity interrupted,
      at least the quiet time after every activity and at least an interval after construction and
      after each resume that read the clock. */
  lemma RequestsAreGated(cfg: Config, now: real, events: seq<Event>)
    requires cfg.Valid()
    ensures var h := Run(cfg, Constructed(cfg, now), events).history;
            forall j | 0 <= j < |h| :: Gated(h, j) && Waited(cfg, h, j)
  {
    ConstructedInv(cfg, now);
    RunKeepsInv(cfg, Constructed(cfg, now), events);
  }

  /** A candidate picked twice was picked in two cycles, even when the late gate rejected it. */
  lemma CandidatesAreTriedOnce(cfg: Config, now: real, events: seq<Event>)
    requires cfg.Valid()
    ensures var h := Run(cfg, Constructed(cfg, now), events).history;
            forall i, j | 0 <= i < j < |h| && h[i].Picked? && h[j] == h[i] ::
              exists k | i < k < j :: h[k].CycleStarted?
  {
    ConstructedInv(cfg, now);
    RunKeepsInv(cfg, Constructed(cfg, now), events);
    var h := Run(cfg, Constructed(cfg, now), events).history;
    forall i, j | 0 <= i < j < |h| && h[i].Picked? && h[j] == h[i]
      ensures exists k | i < k < j :: h[k].CycleStarted?
    {
      RepeatNeedsNewCycle(h, i, j);
    }
  }

  /** With the cycle's candidates drawn from some set, selection is reached at most once more than the set
      has members, not counting selections that ended the owner's task; and the counters balance. */
  lemma SelectionsAreBounded(cfg: Config, now: real, events: seq<Event>, candidates: set<Candidate>)
    requires cfg.Valid()
    requires PickedSince(Run(cfg, Constructed(cfg, now), events).history) <= candidates
    ensures var s := Run(cfg, Constructed(cfg, now), events);
            && SelectionsSince(s.history) <= |candidates| + 1 + s.lost
            && Balanced(s)
  {
    ConstructedInv(cfg, now);
    RunKeepsInv(cfg, Constructed(cfg, now), events);
    SmallerSet(PickedSince(Run(cfg, Constructed(cfg, now), events).history), candidates);
  }
}
