/**
What a cancellation does to a pairing attempt, and what an attempt does that nobody cancels.
*/
module PairingCancellation {
  import opened Basics
  import opened BondLedger
  import opened Attempt = Pairing
  import opened PairingInvariant
  import opened PairingSafety
  import opened PairingRuns

  // ---------------------------------------------------------------- the traffic after a verified bond

  // After the verifying read nothing more is done unless a rollback was asked for; then its first read comes next.
  ghost predicate ReadyTraffic(s: State) {
    s.flow.Cleaning? && s.flow.job.verdict == Ready(true) ==>
      if !s.flow.control.attempted || s.flow.stage.RollRead? then |s.log| == 6
      else |s.log| >= 7 && s.log[6].Read?
  }

  lemma ReadyTrafficBegins(s: State, e: Event)
    requires Inv(s) && s.flow.Guarded?
    ensures ReadyTraffic(Step(s, e))
  {
  }

  lemma ReadKeepsReadyTraffic(s: State, path: DevicePath, v: View)
    requires Inv(s) && s.flow.Cleaning? && ReadyTraffic(s)
    ensures ReadyTraffic(Step(s, Objects(path, v)))
  {
    assert s.log + [] == s.log;
  }

  lemma OtherKeepsReadyTraffic(s: State, e: Event)
    requires Inv(s) && s.flow.Cleaning? && ReadyTraffic(s) && !e.Objects?
    ensures ReadyTraffic(Step(s, e))
  {
    assert s.log + [] == s.log;
  }

  lemma StepKeepsReadyTraffic(s: State, e: Event)
    requires Inv(s) && ReadyTraffic(s)
    ensures ReadyTraffic(Step(s, e))
  {
    match s.flow {
      case Guarded(_) => ReadyTrafficBegins(s, e);
      case Cleaning(_, _, _) =>
        if e.Objects? {
          ReadKeepsReadyTraffic(s, e.path, e.view);
        } else {
          OtherKeepsReadyTraffic(s, e);
        }
      case Ended(_, _) => EndedStays(s, [e]);
    }
  }

  lemma {:induction false} RunKeepsReadyTraffic(s: State, events: seq<Event>)
    requires Inv(s) && ReadyTraffic(s)
    ensures ReadyTraffic(Run(s, events))
    decreases |events|
  {
    if events != [] {
      StepKeepsInv(s, events[0]);
      StepKeepsReadyTraffic(s, events[0]);
      RunKeepsReadyTraffic(Step(s, events[0]), events[1..]);
    }
  }

  // ---------------------------------------------------------------- after a cancellation

  // A created bond is delivered, and a rollback of it was or was not tried.
  predicate DeliversCreated(f: Flow) {
    f.Ended? && f.outcome.Delivered? && f.outcome.created
  }

  // The cancellation is remembered.  In the end it was honoured, or the created bond is held because it could not be
  // undone, which has been tried.
  predicate Cancelled(s: State) {
    match s.flow
    case Guarded(_) => false
    case Cleaning(_, j, c) => c.interrupted || j.verdict.Interrupted?
    case Ended(_, o) =>
      (o.CancelledOut? || Held(s)) && (DeliversCreated(s.flow) ==> |s.log| >= 7 && s.log[6].Read?)
  }

  // The result has been handed over: too late to cancel.
  predicate TooLate(f: Flow) {
    f.Ended? || (f.Cleaning? && f.control.committed)
  }

  lemma CancelIsTaken(s: State)
    requires Inv(s)
    ensures if TooLate(s.flow) then Step(s, Cancel) == s else Cancelled(Step(s, Cancel))
  {
    assert s.log + [] == s.log;
  }

  lemma CancelledSettles(s: State)
    requires Inv(s) && ReadyTraffic(s) && Cancelled(s) && s.flow.Cleaning? && s.flow.stage.Settled?
    ensures Cancelled(Step(s, Turn))
  {
    OutcomeSettles(s.target, s.flow.job, s.flow.control, s.ledger);
    assert s.log + [] == s.log;
  }

  lemma CancelledStays(s: State, e: Event)
    requires Inv(s) && ReadyTraffic(s) && Cancelled(s)
    ensures Cancelled(Step(s, e))
  {
    match s.flow {
      case Cleaning(st, _, _) =>
        if st.Settled? && e.Turn? {
          CancelledSettles(s);
        }
      case Ended(_, _) => EndedStays(s, [e]);
    }
  }

  lemma {:induction false} CancelledRunEndsSo(s: State, events: seq<Event>)
    requires Inv(s) && ReadyTraffic(s) && Cancelled(s)
    ensures Cancelled(Run(s, events))
    decreases |events|
  {
    if events != [] {
      StepKeepsInv(s, events[0]);
      StepKeepsReadyTraffic(s, events[0]);
      CancelledStays(s, events[0]);
      CancelledRunEndsSo(Step(s, events[0]), events[1..]);
    }
  }

  /** A cancellation before the result is handed over is honoured, wherever it arrives: the attempt ends cancelled, or
      it holds the bond that could not be undone, and a bond that had been verified is delivered all the same only
      after a rollback was tried.  Later cancellations change nothing. */
  lemma CancellationIsHonoured(address: string, ledger: Ledger, before: seq<Event>, after: seq<Event>)
    requires Sound(ledger)
    ensures var s := Run(Start(address, ledger), before); var end := Run(Step(s, Cancel), after);
            if TooLate(s.flow) then Step(s, Cancel) == s
            else
              && (end.flow.Ended? ==> end.flow.outcome.CancelledOut? || Held(end))
              && (DeliversCreated(end.flow) ==> |end.log| >= 7 && end.log[6].Read?)
  {
    var s := Run(Start(address, ledger), before);
    RunKeepsInv(Start(address, ledger), before);
    RunKeepsReadyTraffic(Start(address, ledger), before);
    StepKeepsReadyTraffic(s, Cancel);
    CancelIsTaken(s);
    StepKeepsInv(s, Cancel);
    if !TooLate(s.flow) {
      CancelledRunEndsSo(Step(s, Cancel), after);
    }
  }

  // ---------------------------------------------------------------- without one

  // Nothing of a cancellation in the state.
  predicate Uncancelled(s: State) {
    match s.flow
    case Guarded(_) => true
    case Cleaning(_, j, c) => !c.interrupted && !j.verdict.Interrupted?
    case Ended(_, o) => !o.CancelledOut? && (DeliversCreated(s.flow) ==> |s.log| == 6)
  }

  lemma {:induction false} UncancelledRun(s: State, events: seq<Event>)
    requires Inv(s) && ReadyTraffic(s) && Uncancelled(s) && Cancel !in events
    ensures Uncancelled(Run(s, events))
    decreases |events|
  {
    if events != [] {
      assert events[0] in events;
      StepKeepsInv(s, events[0]);
      StepKeepsReadyTraffic(s, events[0]);
      UncancelledStep(s, events[0]);
      UncancelledRun(Step(s, events[0]), events[1..]);
    }
  }

  lemma UncancelledSettles(s: State)
    requires Inv(s) && ReadyTraffic(s) && Uncancelled(s) && s.flow.Cleaning? && s.flow.stage.Settled?
    ensures Uncancelled(Step(s, Turn))
  {
    OutcomeSettles(s.target, s.flow.job, s.flow.control, s.ledger);
    assert s.log + [] == s.log;
  }

  // Cleanup goes on with the same job and no new cancellation.
  predicate GoesOn(f: Flow, j: Job, c: Control) {
    f.Cleaning? && f.job == j && f.control.interrupted == c.interrupted
  }

  lemma CleaningGoesOn(st: Stage, t: Target, j: Job, c: Control, l: Ledger, v: View, ok: bool)
    ensures GoesOn(CleanObjects(st, t, j, c, v), j, c) && GoesOn(CleanReply(st, j, c, ok), j, c)
    ensures !st.Settled? ==> GoesOn(CleanTurn(st, j, c, l), j, c)
  {
  }

  lemma UncancelledCleaning(s: State, e: Event)
    requires Uncancelled(s) && s.flow.Cleaning? && !e.Cancel? && !(s.flow.stage.Settled? && e.Turn?)
    ensures Uncancelled(Step(s, e))
  {
    var v, ok := if e.Objects? then e.view else Missing, if e.Reply? then e.ok else true;
    CleaningGoesOn(s.flow.stage, s.target, s.flow.job, s.flow.control, s.ledger, v, ok);
    assert GoesOn(NextFlow(s, e), s.flow.job, s.flow.control);
  }

  lemma UncancelledStep(s: State, e: Event)
    requires Inv(s) && ReadyTraffic(s) && Uncancelled(s) && !e.Cancel?
    ensures Uncancelled(Step(s, e))
  {
    match s.flow {
      case Guarded(_) =>
      case Cleaning(st, _, _) =>
        if st.Settled? && e.Turn? {
          UncancelledSettles(s);
        } else {
          UncancelledCleaning(s, e);
        }
      case Ended(_, _) => EndedStays(s, [e]);
    }
  }

  /** An attempt that nobody cancels never ends cancelled, and does nothing to a bond it has verified. */
  lemma NobodyCancelled(address: string, ledger: Ledger, events: seq<Event>)
    requires Sound(ledger) && Cancel !in events
    ensures var end := Run(Start(address, ledger), events);
            && (end.flow.Ended? ==> !end.flow.outcome.CancelledOut?)
            && (DeliversCreated(end.flow) ==> |end.log| == 6)
  {
    UncancelledRun(Start(address, ledger), events);
  }

  // ---------------------------------------------------------------- calling a pending Pair() off

  // CancelPairing follows a read of the device beneath its own controller, while Pair() has not been acknowledged.
  ghost predicate CallsOff(t: Target, log: seq<Entry>) {
    forall i | 0 <= i < |log| && log[i] == Sent(CancelPairing) ::
      && i == 4 && log[2] == Sent(Pair) && Acked(Pair) !in log
      && log[3].Read? && log[3].view.Seen? && log[3].view.facts.controller == t.device.controller
  }

  ghost predicate CallingOff(s: State) {
    && CallsOff(s.target, s.log)
    && (s.flow.Cleaning? && s.flow.job.cancelPairing && (s.flow.stage.CleanStart? || s.flow.stage.CleanProbe?) ==>
          |s.log| == 3 && s.log[2] == Sent(Pair))
    && (s.flow.Cleaning? && s.flow.stage.CleanProbe? ==> s.flow.job.cancelPairing)
    && (s.flow.Cleaning? && s.flow.job.cancelPairing ==> !s.flow.job.owned)
  }

  lemma CallsOffLasts(t: Target, log: seq<Entry>, more: seq<Entry>)
    requires CallsOff(t, log) && Sent(CancelPairing) !in more && Acked(Pair) !in more
    ensures CallsOff(t, log + more)
  {
  }

  lemma GuardedKeepsCallingOff(s: State, e: Event)
    requires s.flow.Guarded? && LogInv(s)
    ensures CallingOff(Step(s, e))
  {
  }

  lemma CleaningKeepsCallingOff(s: State, e: Event)
    requires s.flow.Cleaning? && FlowInv(s) && LogInv(s) && CallingOff(s)
    ensures CallingOff(Step(s, e))
  {
    if s.flow.stage.CleanProbe? && e.Objects? {
      assert |s.log| == 3;
    } else {
      CallsOffLasts(s.target, s.log, Traffic(s, e));
    }
  }

  lemma {:induction false} RunKeepsCallingOff(s: State, events: seq<Event>)
    requires Inv(s) && CallingOff(s)
    ensures CallingOff(Run(s, events))
    decreases |events|
  {
    if events != [] {
      StepKeepsInv(s, events[0]);
      match s.flow {
        case Guarded(_) => GuardedKeepsCallingOff(s, events[0]);
        case Cleaning(_, _, _) => CleaningKeepsCallingOff(s, events[0]);
        case Ended(_, _) => EndedStays(s, [events[0]]);
      }
      RunKeepsCallingOff(Step(s, events[0]), events[1..]);
    }
  }

  // What is sent after one read, when Pair() is to be called off.
  function CallOff(t: Target, v: View): seq<Entry> {
    if v.Seen? && v.facts.controller == t.device.controller then [Read(v), Sent(CancelPairing)] else [Read(v)]
  }

  lemma CancelledPairIsCalledOff(s: State, path: DevicePath, v: View)
    requires s.flow == Guarded(Pairing)
    ensures Run(s, [Cancel, Turn, Objects(path, v)]).log == s.log + CallOff(s.target, v)
  {
    RunThree(s, Cancel, Turn, Objects(path, v));
    var probing := Step(Step(s, Cancel), Turn);
    assert s.log + [] + [] == s.log && probing.log == s.log && probing.target == s.target;
  }

  /** CancelPairing is sent at most once, for our own pending Pair() and right after a read of the device beneath its
      own controller; and an attempt that is cancelled while it waits for Pair() does send it when it reads that. */
  lemma PendingPairIsCalledOff(address: string, ledger: Ledger, events: seq<Event>, path: DevicePath, v: View)
    requires Sound(ledger)
    ensures var s := Run(Start(address, ledger), events);
            && CallsOff(s.target, s.log)
            && (s.flow == Guarded(Pairing) ==>
                  Run(s, [Cancel, Turn, Objects(path, v)]).log == s.log + CallOff(s.target, v))
  {
    var s := Run(Start(address, ledger), events);
    RunKeepsInv(Start(address, ledger), events);
    RunKeepsCallingOff(Start(address, ledger), events);
    if s.flow == Guarded(Pairing) {
      CancelledPairIsCalledOff(s, path, v);
    }
  }
}
