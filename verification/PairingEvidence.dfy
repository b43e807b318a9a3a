/**
What was seen of the device before the attempt acted on it or delivered its bond, over every run.
*/
module PairingEvidence {
  import opened Basics
  import opened BondLedger
  import opened Attempt = Pairing
  import opened PairingInvariant
  import opened PairingSafety

  // The read that resolved the target: the selected address on a powered controller.
  predicate Resolved(t: Target, log: seq<Entry>) {
    log != [] && log[0] == Read(Seen(t.device)) && t.device.address == t.address && t.device.powered
  }

  // The device is ours to pair: not bonded, its path spells the address, and it reports the service or none yet.
  predicate Free(t: Target) {
    !t.device.paired && !t.device.services.Foreign? && t.path.suffix == t.address
  }

  // The check right before Pair() found the same address on the same powered controller, still unpaired.
  predicate StillFree(t: Target, e: Entry) {
    e.Read? && e.view.Seen?
    && (var f := e.view.facts;
        && f.address == t.address && f.powered && f.controller == t.device.controller
        && !f.paired && !f.services.Foreign?)
  }

  predicate FreeTwice(t: Target, log: seq<Entry>) {
    Resolved(t, log) && Free(t) && |log| >= 3 && StillFree(t, log[1]) && log[2] == Sent(Pair)
  }

  /** A created bond was read after Pair() was acknowledged: paired, trusted, with the Meshtastic service, on the
      target's own powered controller, and it is delivered under the address read then. */
  predicate SeenCreated(t: Target, log: seq<Entry>, b: Bond) {
    FreeTwice(t, log) && |log| >= 6 && log[3] == Acked(Pair) && log[5].Read? && log[5].view.Seen?
    && (var f := log[5].view.facts;
        && f.paired && f.trusted && f.services.Meshtastic? && f.powered && f.controller == t.device.controller
        && b == Bond(f.address, t.path.hci, f.controller, Some(t.path), Some(t.owner)))
  }

  /** A bond that was there before was read twice, and nothing was done to it: paired, at the selected address on one
      powered controller, with the Meshtastic service. */
  predicate SeenBefore(t: Target, log: seq<Entry>, b: Bond) {
    Resolved(t, log) && t.device.paired && t.device.services.Meshtastic?
    && |log| == 2 && log[1].Read? && log[1].view.Seen?
    && (var f := log[1].view.facts;
        && f.paired && f.powered && f.address == t.address && f.controller == t.device.controller
        && b == Bond(f.address, t.path.hci, f.controller, Some(t.path), Some(t.owner)))
  }

  ghost predicate GuardedEvidence(a: Await, t: Target, log: seq<Entry>) {
    !Early(a) ==>
      && Resolved(t, log)
      && (if a.ReOwner? || a.ReVerify? then t.device.paired && t.device.services.Meshtastic? else Free(t))
      && (a.Pairing? || PairAcked(a) ==> FreeTwice(t, log))
  }

  ghost predicate CleaningEvidence(st: Stage, j: Job, t: Target, log: seq<Entry>) {
    && (Sent(Pair) in log ==> FreeTwice(t, log))
    && (j.verdict == Ready(true) ==> SeenCreated(t, log, j.bond))
    && (j.verdict == Ready(false) ==> SeenBefore(t, log, j.bond))
    && (st.CleanProbe? || st.CleanCancel? ==> j.verdict.Interrupted?)
    && (j.cancelPairing ==> j.verdict.Interrupted?)
  }

  ghost predicate EndedEvidence(o: Outcome, t: Target, log: seq<Entry>) {
    && (Sent(Pair) in log ==> FreeTwice(t, log))
    && (o.Delivered? && o.created ==> SeenCreated(t, log, o.bond))
    && (o.Delivered? && !o.created ==> SeenBefore(t, log, o.bond))
  }

  ghost predicate Evidence(s: State) {
    match s.flow
    case Guarded(a) => GuardedEvidence(a, s.target, s.log)
    case Cleaning(st, j, _) => CleaningEvidence(st, j, s.target, s.log)
    case Ended(_, o) => EndedEvidence(o, s.target, s.log)
  }

  // What was seen stays seen as the traffic goes on.
  lemma EvidenceLasts(t: Target, log: seq<Entry>, more: seq<Entry>, b: Bond)
    requires Sent(Pair) !in more
    ensures Sent(Pair) in log + more <==> Sent(Pair) in log
    ensures FreeTwice(t, log) ==> FreeTwice(t, log + more)
    ensures SeenCreated(t, log, b) ==> SeenCreated(t, log + more, b)
  {
  }

  lemma AbandonKeepsEvidence(a: Await, t: Target, log: seq<Entry>, v: Verdict)
    requires GuardedLog(a, t, log) && GuardedEvidence(a, t, log) && (v.Failed? || v.Interrupted?)
    ensures match Abandon(a, t, v)
            case Cleaning(st, j, _) => CleaningEvidence(st, j, t, log)
            case Ended(_, o) => EndedEvidence(o, t, log)
            case Guarded(_) => false
  {
  }

  lemma ResolveKeepsEvidence(s: State, path: DevicePath, v: View)
    requires s.flow == Guarded(Resolve) && LogInv(s) && Evidence(s)
    ensures Evidence(Step(s, Objects(path, v)))
  {
  }

  lemma ReVerifyKeepsEvidence(s: State, path: DevicePath, v: View)
    requires s.flow == Guarded(ReVerify) && LogInv(s) && Evidence(s)
    ensures Evidence(Step(s, Objects(path, v)))
  {
  }

  lemma PrePairKeepsEvidence(s: State, path: DevicePath, v: View)
    requires s.flow == Guarded(PrePair) && LogInv(s) && Evidence(s)
    ensures Evidence(Step(s, Objects(path, v)))
  {
  }

  lemma VerifyingKeepsEvidence(s: State, path: DevicePath, v: View)
    requires s.flow == Guarded(Verifying) && LogInv(s) && Evidence(s)
    ensures Evidence(Step(s, Objects(path, v)))
  {
    EvidenceLasts(s.target, s.log, [Read(v)], BondFor(s.target, s.target.device));
  }

  lemma GuardedReadKeepsEvidence(s: State, path: DevicePath, v: View)
    requires s.flow.Guarded? && LogInv(s) && Evidence(s)
    ensures Evidence(Step(s, Objects(path, v)))
  {
    match s.flow.at {
      case Resolve => ResolveKeepsEvidence(s, path, v);
      case ReVerify => ReVerifyKeepsEvidence(s, path, v);
      case PrePair => PrePairKeepsEvidence(s, path, v);
      case Verifying => VerifyingKeepsEvidence(s, path, v);
      case _ => assert s.log + [] == s.log;
    }
  }

  lemma PairReplyKeepsEvidence(s: State)
    requires s.flow == Guarded(Pairing) && LogInv(s) && Evidence(s)
    ensures Evidence(Step(s, Reply(true)))
  {
    EvidenceLasts(s.target, s.log, [Acked(Pair), Sent(Trust)], BondFor(s.target, s.target.device));
  }

  lemma GuardedReplyKeepsEvidence(s: State, ok: bool)
    requires s.flow.Guarded? && LogInv(s) && Evidence(s)
    ensures Evidence(Step(s, Reply(ok)))
  {
    if ok && s.flow.at.Pairing? {
      PairReplyKeepsEvidence(s);
    } else {
      assert s.log + [] == s.log && Step(s, Reply(ok)).log == s.log;
      AbandonKeepsEvidence(s.flow.at, s.target, s.log, Failed);
    }
  }

  lemma GuardedOwnerKeepsEvidence(s: State, owner: Option<string>)
    requires s.flow.Guarded? && LogInv(s) && Evidence(s)
    ensures Evidence(Step(s, Owner(owner)))
  {
    assert s.log + [] == s.log && Step(s, Owner(owner)).log == s.log;
    if s.flow.at.GetOwner? {
      assert s.log == [];
    } else if WaitsForOwner(s.flow.at) {
      AbandonKeepsEvidence(s.flow.at, s.target, s.log, Failed);
    } else {
      assert Step(s, Owner(owner)).flow == s.flow && Step(s, Owner(owner)).target == s.target;
    }
  }

  lemma GuardedKeepsEvidence(s: State, e: Event)
    requires s.flow.Guarded? && LogInv(s) && Evidence(s)
    ensures Evidence(Step(s, e))
  {
    match e {
      case Objects(path, v) => GuardedReadKeepsEvidence(s, path, v);
      case Reply(ok) => GuardedReplyKeepsEvidence(s, ok);
      case Owner(owner) => GuardedOwnerKeepsEvidence(s, owner);
      case Cancel =>
        assert s.log + [] == s.log && Step(s, e).log == s.log;
        AbandonKeepsEvidence(s.flow.at, s.target, s.log, Interrupted);
      case _ =>
        assert s.log + [] == s.log && Step(s, e).log == s.log;
        assert Step(s, e).flow == s.flow && Step(s, e).target == s.target;
    }
  }

  // A bond that was there before is never read again during cleanup.
  lemma NothingReadOfAKnownBond(s: State)
    requires s.flow.Cleaning? && FlowInv(s) && Evidence(s) && s.flow.job.verdict == Ready(false)
    ensures var st := s.flow.stage;
            st.CleanStart? || st.Unregister? || st.Disconnect? || st.Settled?
  {
  }

  lemma CleaningGoesOnReading(s: State, path: DevicePath, v: View)
    requires s.flow.Cleaning?
    ensures var f := NextFlow(s, Objects(path, v));
            && f.Cleaning? && f.job == s.flow.job && (f.stage.CleanProbe? ==> s.flow.stage.CleanProbe?)
            && (f.stage.CleanCancel? ==> s.flow.stage.CleanProbe? || s.flow.stage.CleanCancel?)
    ensures Sent(Pair) !in Traffic(s, Objects(path, v))
  {
  }

  lemma CleaningReadKeepsEvidence(s: State, path: DevicePath, v: View)
    requires s.flow.Cleaning? && FlowInv(s) && Evidence(s)
    ensures Evidence(Step(s, Objects(path, v)))
  {
    CleaningGoesOnReading(s, path, v);
    EvidenceLasts(s.target, s.log, Traffic(s, Objects(path, v)), s.flow.job.bond);
    if s.flow.job.verdict == Ready(false) {
      NothingReadOfAKnownBond(s);
      assert s.log + [] == s.log;
    }
  }

  lemma CleaningReplyKeepsEvidence(s: State, ok: bool)
    requires s.flow.Cleaning? && FlowInv(s) && Evidence(s)
    ensures Evidence(Step(s, Reply(ok)))
  {
    EvidenceLasts(s.target, s.log, Traffic(s, Reply(ok)), s.flow.job.bond);
    if s.flow.job.verdict == Ready(false) {
      NothingReadOfAKnownBond(s);
      assert s.log + [] == s.log;
    }
  }

  lemma CleaningKeepsEvidence(s: State, e: Event)
    requires s.flow.Cleaning? && FlowInv(s) && Evidence(s)
    ensures Evidence(Step(s, e))
  {
    match e {
      case Objects(path, v) => CleaningReadKeepsEvidence(s, path, v);
      case Reply(ok) => CleaningReplyKeepsEvidence(s, ok);
      case _ => assert s.log + [] == s.log && Step(s, e).log == s.log;
    }
  }

  lemma StepKeepsEvidence(s: State, e: Event)
    requires FlowInv(s) && LogInv(s) && Evidence(s)
    ensures Evidence(Step(s, e))
  {
    match s.flow {
      case Guarded(_) => GuardedKeepsEvidence(s, e);
      case Cleaning(_, _, _) => CleaningKeepsEvidence(s, e);
      case Ended(_, _) => assert s.log + [] == s.log;
    }
  }

  lemma {:induction false} RunKeepsEvidence(s: State, events: seq<Event>)
    requires Inv(s) && Evidence(s)
    ensures Evidence(Run(s, events))
    decreases |events|
  {
    if events != [] {
      StepKeepsInv(s, events[0]);
      StepKeepsEvidence(s, events[0]);
      RunKeepsEvidence(Step(s, events[0]), events[1..]);
    }
  }

  /** Over all runs: Pair() is called only after the device was read twice, at the selected address beneath one
      powered controller, unbonded and not known to be something else; a bond is delivered as created only when it
      was read, after the acknowledged Pair(), as paired, trusted and Meshtastic on that powered controller; and as
      known only when both reads showed it paired there. */
  lemma DeliveredWasSeen(address: string, ledger: Ledger, events: seq<Event>)
    requires Sound(ledger)
    ensures var s := Run(Start(address, ledger), events);
            && s.target.address == address
            && (Sent(Pair) in s.log ==> FreeTwice(s.target, s.log))
            && (s.flow.Ended? && s.flow.outcome.Delivered? ==>
                  if s.flow.outcome.created then SeenCreated(s.target, s.log, s.flow.outcome.bond)
                  else SeenBefore(s.target, s.log, s.flow.outcome.bond))
  {
    var s := Run(Start(address, ledger), events);
    RunKeepsEvidence(Start(address, ledger), events);
    RunKeepsInv(Start(address, ledger), events);
    RunKeepsAddress(Start(address, ledger), events);
    if s.flow.Guarded? {
      GuardedIsJustified(s.flow.at, s.target, s.log);
      PairIsLate(s.flow.at, s.target, s.log);
    }
  }

  lemma PairIsLate(a: Await, t: Target, log: seq<Entry>)
    requires GuardedLog(a, t, log)
    ensures Sent(Pair) in log ==> a.Pairing? || PairAcked(a)
  {
  }

  lemma {:induction false} RunKeepsAddress(s: State, events: seq<Event>)
    ensures Run(s, events).target.address == s.target.address
    decreases |events|
  {
    if events != [] {
      RunKeepsAddress(Step(s, events[0]), events[1..]);
    }
  }
}
