/**
What each answer decides in the guarded part of a pairing attempt, in terms of what was read, and that the
agent is taken away again.
*/
module PairingDecisions {
  import opened Basics
  import opened BondLedger
  import opened Attempt = Pairing
  import opened PairingInvariant
  import opened PairingEvidence

  // The selected address on a powered controller; an unbonded device's path must spell the address.
  predicate IsSelected(address: string, path: DevicePath, f: Facts) {
    f.address == address && f.powered && (!f.paired ==> path.suffix == address)
  }

  /** Resolving goes on exactly with the selected device: towards Pair() when it is unbonded, not known to be something
      else and unclaimed; towards the check of an existing bond when it is bonded and Meshtastic. */
  lemma ResolvingDecides(s: State, path: DevicePath, v: View)
    requires s.flow == Guarded(Resolve)
    ensures var r := Step(s, Objects(path, v));
            r.flow == Guarded(Register) <==>
              && v.Seen? && IsSelected(s.target.address, path, v.facts) && !v.facts.paired && !v.facts.services.Foreign?
              && Unclaimed(s.ledger, Bond(v.facts.address, path.hci, v.facts.controller, Some(path),
                                          Some(s.target.owner)))
    ensures var r := Step(s, Objects(path, v));
            r.flow == Guarded(ReOwner) <==>
              v.Seen? && IsSelected(s.target.address, path, v.facts) && v.facts.paired && v.facts.services.Meshtastic?
    ensures var r := Step(s, Objects(path, v));
            if r.flow.Guarded? then
              (r.flow.at.Register? || r.flow.at.ReOwner?) && r.target == s.target.(path := path, device := v.facts)
            else r.flow.Cleaning? && r.flow.job.verdict == Failed && !r.flow.job.owned
    ensures var r := Step(s, Objects(path, v));
            r.ledger == if r.flow == Guarded(Register) then Admit(s.ledger, CandidateAt(s, path, v)).0 else s.ledger
  {
    AdmittedExactly(s.ledger, CandidateAt(s, path, v));
  }

  /** The existing bond is accepted exactly when it is read again as paired at the selected address on the same powered
      controller, and unclaimed. */
  lemma ReVerifyingDecides(s: State, path: DevicePath, v: View)
    requires s.flow == Guarded(ReVerify)
    ensures var r := Step(s, Objects(path, v));
            && r.flow.Cleaning? && !r.flow.job.owned
            && (r.flow.job.verdict.Failed? || r.flow.job.verdict == Ready(false))
            && (r.flow.job.verdict.Ready? <==>
                  && v.Seen? && v.facts.address == s.target.address && v.facts.powered && v.facts.paired
                  && v.facts.controller == s.target.device.controller
                  && Unclaimed(s.ledger, Bond(v.facts.address, s.target.path.hci, v.facts.controller,
                                              Some(s.target.path), Some(s.target.owner))))
            && r.ledger == (if r.flow.job.verdict.Ready? then Admit(s.ledger, CandidateAt(s, path, v)).0
                            else s.ledger)
  {
    AdmittedExactly(s.ledger, CandidateAt(s, path, v));
  }

  /** Pair() is called exactly when the check before it still finds the device free. */
  lemma CheckingDecides(s: State, path: DevicePath, v: View)
    requires s.flow == Guarded(PrePair)
    ensures var r := Step(s, Objects(path, v));
            && (r.flow == Guarded(Pairing) <==>
                  && v.Seen? && v.facts.powered && !v.facts.paired
                  && v.facts.address == s.target.address && s.target.path.suffix == s.target.address
                  && v.facts.controller == s.target.device.controller && !v.facts.services.Foreign?)
            && r.log == s.log + [Read(v)] + (if r.flow == Guarded(Pairing) then [Sent(Pair)] else [])
            && (r.flow.Guarded? ==> r.flow.at.Pairing?)
            && (r.flow.Cleaning? ==> r.flow.job.verdict == Failed && !r.flow.job.owned) && r.ledger == s.ledger
  {
    assert s.log + [Read(v)] + [Sent(Pair)] == s.log + [Read(v), Sent(Pair)];
  }

  /** A created bond is good exactly when it is read as paired, trusted and Meshtastic on the same powered controller;
      otherwise it is rolled back. */
  lemma VerifyingDecides(s: State, path: DevicePath, v: View)
    requires s.flow == Guarded(Verifying)
    ensures var r := Step(s, Objects(path, v));
            && r.flow.Cleaning? && r.flow.job.owned && (r.flow.job.verdict.Failed? || r.flow.job.verdict == Ready(true))
            && (r.flow.job.verdict.Ready? <==>
                  && v.Seen? && v.facts.powered && v.facts.controller == s.target.device.controller
                  && v.facts.paired && v.facts.trusted && v.facts.services.Meshtastic?)
            && r.ledger == s.ledger && r.log == s.log + [Read(v)]
  {
  }

  /** The owner of BlueZ's name must stay the one found first, at every later check. */
  lemma OwnerDecides(s: State, owner: Option<string>)
    requires s.flow.Guarded? && WaitsForOwner(s.flow.at)
    ensures var r := Step(s, Owner(owner));
            && (r.flow.Guarded? <==> if s.flow.at.GetOwner? then owner.Some? else owner == Some(s.target.owner))
            && (r.flow.Guarded? ==> r.target == s.target.(owner := owner.value))
            && (r.flow.Cleaning? ==> r.flow.job.verdict == Failed) && r.ledger == s.ledger && r.log == s.log
    ensures s.flow.at.GetOwner? || s.flow.at.ReOwner? || s.flow.at.OwnerBefore? || s.flow.at.OwnerAfter?
  {
  }

  /** What the replies to plain calls lead to: a bus that cannot be opened ends the attempt at once, every other failing
      call is cleaned up after, and only an acknowledged Pair() makes the bond ours. */
  lemma CallDecides(s: State, ok: bool)
    requires s.flow.Guarded? && WaitsForCall(s.flow.at)
    ensures var r := Step(s, Reply(ok));
            && r.target == s.target && r.ledger == s.ledger
            && (ok ==> r.flow == Guarded(match s.flow.at
                                         case OpenBus => GetOwner
                                         case Register => OwnerBefore
                                         case Pairing => Trusting
                                         case _ => OwnerAfter))
            && (!ok && s.flow.at.OpenBus? ==> r.flow == Ended(false, Raised))
            && (!ok && !s.flow.at.OpenBus? ==>
                  && r.flow.Cleaning? && r.flow.stage.CleanStart? && r.flow.job.verdict == Failed
                  && (r.flow.job.owned <==> s.flow.at.Trusting?) && !r.flow.job.cancelPairing)
            && r.log == s.log + (if ok && s.flow.at.Pairing? then [Acked(Pair), Sent(Trust)] else [])
    ensures s.flow.at.OpenBus? || s.flow.at.Register? || s.flow.at.Pairing? || s.flow.at.Trusting?
  {
  }

  /** A cancelled wait is cleaned up after, too, with the bond still ours if Pair() was acknowledged before; while the
      bus is being opened there is nothing to clean up. */
  lemma CancelDecides(s: State)
    requires s.flow.Guarded?
    ensures var r := Step(s, Cancel); var a := s.flow.at;
            if a.OpenBus? then r.flow == Ended(false, CancelledOut)
            else
              && r.flow.Cleaning? && r.flow.stage.CleanStart? && r.flow.job.verdict == Interrupted
              && (r.flow.job.owned <==> a.Trusting? || a.OwnerAfter? || a.Verifying?)
              && (r.flow.job.cancelPairing <==> a.Pairing?)
              && r.flow.control == Control(false, false, false, false, false)
    ensures Step(s, Cancel).ledger == s.ledger && Step(s, Cancel).log == s.log
  {
  }

  // ---------------------------------------------------------------- cleanup

  // The created bond is to be undone: the attempt failed, or it was cancelled before the hand-over.
  predicate MustUndo(j: Job, c: Control) {
    (j.owned && !j.verdict.Ready?) || c.requested
  }

  // Cleanup past the device's own steps: the rollback, if it must be, then the agent, then the bus.
  predicate OnwardFrom(f: Flow, j: Job, c: Control) {
    && f.Cleaning? && f.job == j
    && (if MustUndo(j, c) then f.stage == RollRead(false) && f.control == c.(attempted := true)
        else if j.registered then f.stage == Unregister && f.control == c
        else f.stage == Disconnect && f.control == c.(committed := j.owned))
  }

  /** Cleanup first calls a pending Pair() off when it was cancelled, if the device is read beneath its own controller;
      then it goes on. */
  lemma CleanupBegins(s: State, path: DevicePath, v: View, ok: bool)
    requires s.flow.Cleaning? && FlowInv(s)
    ensures var j, c := s.flow.job, s.flow.control;
            && (s.flow.stage.CleanStart? ==>
                  if j.cancelPairing then Step(s, Turn).flow == Cleaning(CleanProbe, j, c)
                  else OnwardFrom(Step(s, Turn).flow, j, c))
            && (s.flow.stage.CleanProbe? ==>
                  if v.Seen? && v.facts.controller == s.target.device.controller
                  then Step(s, Objects(path, v)).flow == Cleaning(CleanCancel, j, c)
                  else OnwardFrom(Step(s, Objects(path, v)).flow, j, c))
            && (s.flow.stage.CleanCancel? ==> OnwardFrom(Step(s, Reply(ok)).flow, j, c))
  {
  }

  // Where a rollback that has found the device clear, or not, goes on.
  predicate UndoneFrom(f: Flow, late: bool, j: Job, c: Control, clear: bool) {
    && f.Cleaning? && f.job == j
    && (if j.registered && !late then f.stage == Unregister && f.control == c.(succeeded := clear)
        else f.stage == Disconnect && f.control == c.(succeeded := clear, committed := j.owned && !clear))
  }

  /** A rollback removes the device exactly when it reads its own bond still in place, checks again exactly after an
      acknowledged removal, and takes the device for clear exactly when it is gone or read as unpaired, before the
      removal beneath its own controller only. */
  lemma RollbackDecides(s: State, path: DevicePath, v: View, ok: bool)
    requires s.flow.Cleaning? && FlowInv(s)
    ensures var st, j, c := s.flow.stage, s.flow.job, s.flow.control;
            var own := v.Seen? && v.facts.controller == s.target.device.controller;
            && (st.RollRead? ==>
                  var f := Step(s, Objects(path, v)).flow;
                  if own && v.facts.paired then f == Cleaning(RollRemove(st.late), j, c)
                  else UndoneFrom(f, st.late, j, c, v.Missing? || (own && !v.facts.paired)))
            && (st.RollRemove? ==>
                  var f := Step(s, Reply(ok)).flow;
                  if ok then f == Cleaning(RollCheck(st.late), j, c) else UndoneFrom(f, st.late, j, c, false))
            && (st.RollCheck? ==>
                  UndoneFrom(Step(s, Objects(path, v)).flow, st.late, j, c, v.Missing? || (v.Seen? && !v.facts.paired)))
  {
  }

  /** After the agent's removal a cancellation that came too late for the first decision still leads to a rollback;
      otherwise the decision is final: an owned bond that was not undone is handed over. */
  lemma CleanupEnds(s: State, ok: bool)
    requires s.flow.Cleaning? && FlowInv(s)
    ensures var j, c := s.flow.job, s.flow.control;
            && (s.flow.stage.Unregister? ==>
                  Step(s, Reply(ok)).flow
                  == if c.requested && !c.attempted then Cleaning(RollRead(true), j, c.(attempted := true))
                     else Cleaning(Disconnect, j, c.(committed := j.owned && !c.succeeded)))
            && (s.flow.stage.Disconnect? ==> Step(s, Reply(ok)).flow == Cleaning(Settled, j, c))
            && (s.flow.stage.Settled? ==> Step(s, Turn).flow.Ended? && Step(s, Turn).flow.owned == j.owned)
  {
  }

  // ---------------------------------------------------------------- the agent

  // The agent is registered at BlueZ, or may be, and the cleanup has not asked for its removal yet.
  predicate AgentOut(f: Flow) {
    match f
    case Guarded(a) =>
      a.OwnerBefore? || a.PrePair? || a.Pairing? || a.Trusting? || a.OwnerAfter? || a.Verifying?
    case Cleaning(st, j, _) =>
      j.registered && !st.Unregister? && !st.Disconnect? && !st.Settled?
      && ((st.RollRead? || st.RollRemove? || st.RollCheck?) ==> !st.late)
    case Ended(_, _) => false
  }

  predicate Unregisters(f: Flow) {
    f.Cleaning? && f.stage.Unregister?
  }

  lemma AgentStaysOrGoes(s: State, e: Event)
    requires AgentOut(s.flow)
    ensures AgentOut(Step(s, e).flow) || Unregisters(Step(s, e).flow)
  {
  }

  /** No agent is left behind: once it is registered, an attempt that has ended went through its removal. */
  lemma {:induction false} AgentIsTakenAway(s: State, events: seq<Event>)
    requires AgentOut(s.flow) && Run(s, events).flow.Ended?
    ensures exists k :: 0 <= k <= |events| && Unregisters(Run(s, events[..k]).flow)
    decreases |events|
  {
    if events != [] {
      var next, rest := Step(s, events[0]), events[1..];
      AgentStaysOrGoes(s, events[0]);
      if Unregisters(next.flow) {
        assert events[..1][1..] == [] && Run(s, events[..1]) == next;
      } else {
        AgentIsTakenAway(next, rest);
        var k :| 0 <= k <= |rest| && Unregisters(Run(next, rest[..k]).flow);
        assert events[..k + 1][1..] == rest[..k] && events[..k + 1][0] == events[0];
        assert Run(s, events[..k + 1]) == Run(next, rest[..k]);
      }
    }
  }
}
