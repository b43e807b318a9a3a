/**
What holds after every step of a pairing attempt: job, control flags, device traffic and ledger agree.
*/
module PairingInvariant {
  import opened Basics
  import opened BondLedger
  import opened Attempt = Pairing

  // ---------------------------------------------------------------- what the traffic shows

  predicate ReadOf(e: Entry, controller: string, paired: bool) {
    e.Read? && e.view.Seen? && e.view.facts.controller == controller && e.view.facts.paired == paired
  }

  /** The last thing seen of the device is that no bond is left: it is gone, or unpaired on its own
      controller, or unpaired after BlueZ acknowledged the removal. */
  predicate VerifiedClear(log: seq<Entry>, controller: string) {
    && |log| >= 2
    && log[|log| - 1].Read? && IsClear(log[|log| - 1].view)
    && (log[|log| - 1].view.Seen? && log[|log| - 1].view.facts.controller != controller ==>
          log[|log| - 2] == Acked(RemoveDevice))
  }

  /** Two reads show the device unpaired beneath the controller, and only then is Pair() called. */
  predicate PairFollowsTwoReads(log: seq<Entry>, controller: string) {
    3 <= |log| && ReadOf(log[0], controller, false) && ReadOf(log[1], controller, false) && log[2] == Sent(Pair)
  }

  predicate PairOwned(log: seq<Entry>, controller: string) {
    PairFollowsTwoReads(log, controller) && 5 <= |log| && log[3] == Acked(Pair)
  }

  // Position i follows our acknowledged Pair() and directly follows a read of our bond in place.
  predicate RemovalJustified(log: seq<Entry>, i: nat, controller: string)
    requires i < |log|
  {
    PairOwned(log, controller) && 5 <= i && ReadOf(log[i - 1], controller, true)
  }

  /** Pair() and RemoveDevice are each sent at most once, and only when justified. */
  ghost predicate Justified(log: seq<Entry>, controller: string) {
    && (forall i | 0 <= i < |log| && log[i] == Sent(Pair) :: i == 2 && PairFollowsTwoReads(log, controller))
    && (forall i | 0 <= i < |log| && log[i] == Sent(RemoveDevice) :: RemovalJustified(log, i, controller))
    && (forall i, j | 0 <= i < j < |log| :: !(log[i] == Sent(RemoveDevice) && log[j] == Sent(RemoveDevice)))
  }

  // ---------------------------------------------------------------- the invariant

  predicate ControlInv(st: Stage, j: Job, c: Control) {
    && (c.succeeded ==> c.attempted)
    && (c.attempted ==> Rollback(j) || c.requested)
    && (c.requested <==> j.owned && c.interrupted)
    && ((st.CleanStart? || st.CleanProbe? || st.CleanCancel?) ==> !c.attempted)
    && ((st.CleanProbe? || st.CleanCancel?) ==> !j.owned)
    && ((st.RollRead? || st.RollRemove? || st.RollCheck?) ==> c.attempted && !c.succeeded)
    && (st.Unregister? && Rollback(j) ==> c.attempted)
    && (if st.Disconnect? || st.Settled? then
          && (c.committed ==> j.owned && !c.succeeded) && (c.requested ==> c.attempted)
          && (j.owned && !c.committed ==> c.succeeded && (j.verdict.Ready? ==> c.interrupted))
        else !c.committed)
  }

  predicate JobInv(t: Target, j: Job) {
    && (j.owned ==> j.verdict != Ready(false) && !j.cancelPairing)
    && (j.verdict == Ready(true) ==> j.owned)
    && (j.owned ==> ProofOf(t, j.bond) && WellFormed(j.bond))
  }

  ghost predicate FlowInv(s: State) {
    match s.flow
    case Guarded(a) => true
    case Cleaning(st, j, c) => JobInv(s.target, j) && ControlInv(st, j, c)
    case Ended(_, _) => true
  }

  predicate Early(a: Await) {
    a.OpenBus? || a.GetOwner? || a.Resolve?
  }

  predicate AwaitsPair(a: Await) {
    a.Register? || a.OwnerBefore? || a.PrePair? || a.Pairing?
  }

  ghost predicate GuardedLog(a: Await, t: Target, log: seq<Entry>) {
    var c := t.device.controller;
    if Early(a) then log == []
    else if a.ReOwner? || a.ReVerify? then |log| == 1 && log[0].Read?
    else if a.Pairing? then |log| == 3 && PairFollowsTwoReads(log, c)
    else if PairAcked(a) then |log| == 5 && PairOwned(log, c) && log[4] == Sent(Trust)
    else |log| == 1 && ReadOf(log[0], c, false)
  }

  ghost predicate CleaningLog(st: Stage, j: Job, c: Control, t: Target, log: seq<Entry>) {
    && Justified(log, t.device.controller)
    && (j.owned ==> PairOwned(log, t.device.controller))
    && (!j.owned ==> Acked(Pair) !in log)
    && (!c.attempted || st.RollRead? ==> Sent(RemoveDevice) !in log)
    && (st.RollCheck? ==> log != [] && log[|log| - 1] == Acked(RemoveDevice))
    && (c.succeeded ==> VerifiedClear(log, t.device.controller))
  }

  ghost predicate LogInv(s: State) {
    match s.flow
    case Guarded(a) => GuardedLog(a, s.target, s.log)
    case Cleaning(st, j, c) => CleaningLog(st, j, c, s.target, s.log)
    case Ended(owned, _) =>
      Justified(s.log, s.target.device.controller) && (owned <==> Acked(Pair) in s.log)
  }

  ghost predicate LedgerInv(s: State) {
    && Sound(s.ledger)
    && (s.flow.Guarded? && AwaitsPair(s.flow.at) ==> Matching(s.ledger, BondFor(s.target, s.target.device)) == {})
  }

  // The proof that the ledger must hold for a bond this transaction created.
  predicate ProofOf(t: Target, b: Bond) {
    b.path == Some(t.path) && b.controller == t.device.controller && b.owner == Some(t.owner)
  }

  predicate Held(s: State) {
    && s.flow.Ended?
    && (s.flow.outcome.Incomplete? || (s.flow.outcome.Delivered? && s.flow.outcome.created))
    && Contains(s.ledger, s.flow.outcome.bond) && ProofOf(s.target, s.flow.outcome.bond)
  }

  predicate Undone(s: State) {
    && s.flow.Ended? && (s.flow.outcome.Raised? || s.flow.outcome.CancelledOut?)
    && VerifiedClear(s.log, s.target.device.controller)
  }

  ghost predicate Settlement(s: State) {
    s.flow.Ended? ==>
      if s.flow.owned then Held(s) || Undone(s)
      else !s.flow.outcome.Incomplete? && (s.flow.outcome.Delivered? ==> !s.flow.outcome.created)
  }

  ghost predicate Inv(s: State) {
    FlowInv(s) && LogInv(s) && LedgerInv(s) && Settlement(s)
  }

  // A flow that keeps the control invariant while the job stays the same.
  ghost predicate KeepsJob(f: Flow, j: Job) {
    f.Ended? || (f.Cleaning? && f.job == j && ControlInv(f.stage, j, f.control))
  }

  lemma CleanObjectsKeepsControl(st: Stage, t: Target, j: Job, c: Control, v: View)
    requires JobInv(t, j) && ControlInv(st, j, c)
    ensures KeepsJob(CleanObjects(st, t, j, c, v), j)
  {
  }

  lemma CleanReplyKeepsControl(st: Stage, j: Job, c: Control, ok: bool)
    requires ControlInv(st, j, c)
    ensures KeepsJob(CleanReply(st, j, c, ok), j)
  {
  }

  lemma CleanTurnKeepsControl(st: Stage, t: Target, j: Job, c: Control, l: Ledger)
    requires JobInv(t, j) && ControlInv(st, j, c)
    ensures KeepsJob(CleanTurn(st, j, c, l), j)
  {
  }

  lemma GuardedKeepsFlow(s: State, e: Event)
    requires s.flow.Guarded?
    ensures FlowInv(Step(s, e))
  {
    if NextFlow(s, e).Cleaning? {
      LeavingKeepsFlow(s, e);
    }
  }

  ghost predicate LeavesWell(f: Flow, t: Target) {
    f.Cleaning? && JobInv(t, f.job) && ControlInv(f.stage, f.job, f.control)
  }

  lemma AbandoningLeavesWell(a: Await, t: Target, v: Verdict)
    requires v.Failed? || v.Interrupted?
    ensures !a.OpenBus? ==> LeavesWell(Abandon(a, t, v), t)
  {
  }

  lemma VerifiedLeavesWell(a: Await, t: Target, v: View, resolvable: bool, admitted: bool)
    requires AfterObjects(a, t, v, resolvable, admitted).Cleaning?
    ensures LeavesWell(AfterObjects(a, t, v, resolvable, admitted), t)
  {
    AbandoningLeavesWell(a, t, Failed);
  }

  lemma LeavingKeepsFlow(s: State, e: Event)
    requires s.flow.Guarded? && NextFlow(s, e).Cleaning?
    ensures LeavesWell(NextFlow(s, e), NextTarget(s, e))
  {
    AbandoningLeavesWell(s.flow.at, s.target, Failed);
    AbandoningLeavesWell(s.flow.at, s.target, Interrupted);
    if e.Objects? {
      var admitted := Admit(s.ledger, CandidateAt(s, e.path, e.view)).1;
      VerifiedLeavesWell(s.flow.at, s.target, e.view, Resolvable(s.target, e.path, e.view), admitted);
    }
  }

  lemma StepKeepsFlow(s: State, e: Event)
    requires FlowInv(s)
    ensures FlowInv(Step(s, e))
  {
    match s.flow {
      case Guarded(a) => GuardedKeepsFlow(s, e);
      case Ended(_, _) =>
      case Cleaning(st, j, c) =>
        match e {
          case Objects(_, v) => CleanObjectsKeepsControl(st, s.target, j, c, v);
          case Reply(ok) => CleanReplyKeepsControl(st, j, c, ok);
          case Turn => CleanTurnKeepsControl(st, s.target, j, c, s.ledger);
          case _ =>
        }
    }
  }

  // Whatever a guarded flow has sent is justified, also after one more read.
  lemma GuardedIsJustified(a: Await, t: Target, log: seq<Entry>)
    requires GuardedLog(a, t, log)
    ensures Justified(log, t.device.controller)
    ensures Sent(RemoveDevice) !in log
    ensures PairAcked(a) <==> Acked(Pair) in log
  {
  }

  lemma ReadKeepsJustified(log: seq<Entry>, e: Entry, controller: string)
    requires Justified(log, controller)
    requires e != Sent(Pair) && e != Sent(RemoveDevice)
    ensures Justified(log + [e], controller)
    ensures Sent(RemoveDevice) in log + [e] <==> Sent(RemoveDevice) in log
    ensures e != Acked(Pair) ==> (Acked(Pair) in log + [e] <==> Acked(Pair) in log)
  {
  }

  lemma RemovalKeepsJustified(log: seq<Entry>, controller: string)
    requires Justified(log, controller) && Sent(RemoveDevice) !in log
    requires PairOwned(log, controller) && ReadOf(log[|log| - 1], controller, true)
    ensures Justified(log + [Sent(RemoveDevice)], controller)
  {
  }

  lemma AbandonKeepsLog(a: Await, t: Target, log: seq<Entry>, v: Verdict, bond: Bond)
    requires GuardedLog(a, t, log)
    ensures var f := Leave(a, bond, v); CleaningLog(f.stage, f.job, f.control, t, log)
  {
  }

  lemma PrePairReadKeepsLog(s: State, path: DevicePath, v: View)
    requires s.flow == Guarded(PrePair) && LogInv(s)
    ensures LogInv(Step(s, Objects(path, v)))
  {
    ReadKeepsJustified(s.log, Read(v), s.target.device.controller);
  }

  lemma ResolvingReadKeepsLog(s: State, path: DevicePath, v: View)
    requires (s.flow == Guarded(Resolve) || s.flow == Guarded(ReVerify)) && LogInv(s)
    ensures LogInv(Step(s, Objects(path, v)))
  {
    ReadKeepsJustified(s.log, Read(v), s.target.device.controller);
  }

  lemma VerifyingReadKeepsLog(s: State, path: DevicePath, v: View)
    requires s.flow == Guarded(Verifying) && LogInv(s)
    ensures LogInv(Step(s, Objects(path, v)))
  {
    GuardedIsJustified(s.flow.at, s.target, s.log);
    ReadKeepsJustified(s.log, Read(v), s.target.device.controller);
  }

  lemma GuardedReadKeepsLog(s: State, path: DevicePath, v: View)
    requires s.flow.Guarded? && LogInv(s)
    ensures LogInv(Step(s, Objects(path, v)))
  {
    var a := s.flow.at;
    if a.PrePair? {
      PrePairReadKeepsLog(s, path, v);
    } else if a.Resolve? || a.ReVerify? {
      ResolvingReadKeepsLog(s, path, v);
    } else if a.Verifying? {
      VerifyingReadKeepsLog(s, path, v);
    } else {
      assert s.log + [] == s.log;
      assert NextFlow(s, Objects(path, v)) == s.flow && NextTarget(s, Objects(path, v)) == s.target;
    }
  }

  lemma GuardedReplyKeepsLog(s: State, ok: bool)
    requires s.flow.Guarded? && LogInv(s)
    ensures LogInv(Step(s, Reply(ok)))
  {
    var a := s.flow.at;
    if ok && a.Pairing? {
      PairReplyKeepsLog(s);
    } else {
      assert Traffic(s, Reply(ok)) == [];
      assert s.log + [] == s.log;
      GuardedIsJustified(a, s.target, s.log);
      if WaitsForCall(a) && !ok && !a.OpenBus? {
        AbandonKeepsLog(a, s.target, s.log, Failed, BondFor(s.target, s.target.device));
      }
    }
  }

  lemma PairReplyKeepsLog(s: State)
    requires s.flow == Guarded(Pairing) && LogInv(s)
    ensures LogInv(Step(s, Reply(true)))
  {
    var longer := s.log + [Acked(Pair), Sent(Trust)];
    assert Step(s, Reply(true)).log == longer;
    assert longer[..3] == s.log;
  }

  lemma OwnerKeepsLog(s: State, owner: Option<string>)
    requires s.flow.Guarded? && LogInv(s)
    ensures LogInv(Step(s, Owner(owner)))
  {
    var a := s.flow.at;
    assert s.log + [] == s.log && Step(s, Owner(owner)).log == s.log;
    if WaitsForOwner(a) {
      AbandonKeepsLog(a, s.target, s.log, Failed, BondFor(s.target, s.target.device));
    } else {
      assert NextFlow(s, Owner(owner)) == s.flow && NextTarget(s, Owner(owner)) == s.target;
    }
  }

  lemma GuardedQuietKeepsLog(s: State, e: Event)
    requires s.flow.Guarded? && LogInv(s) && !e.Objects? && !e.Reply?
    ensures LogInv(Step(s, e))
  {
    if e.Cancel? {
      InterruptKeepsLog(s);
    } else if e.Owner? {
      OwnerKeepsLog(s, e.owner);
    } else {
      assert s.log + [] == s.log;
      assert Step(s, e).flow == s.flow && Step(s, e).target == s.target && Step(s, e).log == s.log;
    }
  }

  lemma InterruptKeepsLog(s: State)
    requires s.flow.Guarded? && LogInv(s)
    ensures LogInv(Step(s, Cancel))
  {
    GuardedIsJustified(s.flow.at, s.target, s.log);
    assert s.log + [] == s.log;
    if !s.flow.at.OpenBus? {
      AbandonKeepsLog(s.flow.at, s.target, s.log, Interrupted, BondFor(s.target, s.target.device));
    }
  }

  // How one read moves the cleanup task, as far as the traffic is concerned.
  predicate ReadEffect(st: Stage, t: Target, j: Job, v: View, f: Flow) {
    && f.Cleaning? && f.job == j && !f.stage.RollCheck?
    && (if st.CleanProbe? then !f.control.succeeded && (f.control.attempted ==> f.stage.RollRead?)
        else if st.RollRead? then !f.stage.RollRead? && f.control.attempted
             && (f.control.succeeded ==> ClearAtOnce(t, v))
        else !f.stage.RollRead? && f.control.attempted && (f.control.succeeded ==> IsClear(v)))
  }

  lemma CleanObjectsEffect(st: Stage, t: Target, j: Job, c: Control, v: View)
    requires ControlInv(st, j, c)
    requires st.CleanProbe? || st.RollRead? || st.RollCheck?
    ensures ReadEffect(st, t, j, v, CleanObjects(st, t, j, c, v))
  {
  }

  lemma ReadEffectKeepsLog(st: Stage, t: Target, j: Job, c: Control, log: seq<Entry>, v: View, f: Flow)
    requires ControlInv(st, j, c) && CleaningLog(st, j, c, t, log) && ReadEffect(st, t, j, v, f)
    requires st.CleanProbe? || st.RollRead? || st.RollCheck?
    ensures CleaningLog(f.stage, j, f.control, t, log + [Read(v)])
    ensures CleaningLog(f.stage, j, f.control, t, log + [Read(v), Sent(CancelPairing)]) || !st.CleanProbe?
    ensures st.RollRead? && Removable(t, v) ==>
              CleaningLog(f.stage, j, f.control, t, log + [Read(v), Sent(RemoveDevice)])
  {
    ReadKeepsJustified(log, Read(v), t.device.controller);
    var longer := log + [Read(v)];
    ReadKeepsJustified(longer, Sent(CancelPairing), t.device.controller);
    assert longer + [Sent(CancelPairing)] == log + [Read(v), Sent(CancelPairing)];
    if st.RollRead? && Removable(t, v) {
      RemovalKeepsJustified(longer, t.device.controller);
      assert longer + [Sent(RemoveDevice)] == log + [Read(v), Sent(RemoveDevice)];
    }
  }

  lemma CleaningReadKeepsLog(s: State, path: DevicePath, v: View)
    requires s.flow.Cleaning? && FlowInv(s) && LogInv(s)
    ensures LogInv(Step(s, Objects(path, v)))
  {
    var st, j, c := s.flow.stage, s.flow.job, s.flow.control;
    if st.CleanProbe? || st.RollRead? || st.RollCheck? {
      CleanObjectsEffect(st, s.target, j, c, v);
      ReadEffectKeepsLog(st, s.target, j, c, s.log, v, CleanObjects(st, s.target, j, c, v));
    } else {
      assert s.log + [] == s.log;
    }
  }

  // A reply or a turn of the event loop never reports a clear device.
  predicate QuietEffect(st: Stage, j: Job, c: Control, f: Flow) {
    f.Cleaning? ==>
      && f.job == j && (f.control.succeeded ==> c.succeeded)
      && (f.stage.RollCheck? ==> st.RollCheck?)
      && (f.stage.RollRead? ==> st.RollRead? || !c.attempted)
      && (c.attempted ==> f.control.attempted)
      && (!c.attempted && f.control.attempted ==> f.stage.RollRead?)
  }

  lemma CleanTurnEffect(st: Stage, j: Job, c: Control, l: Ledger)
    requires ControlInv(st, j, c)
    ensures QuietEffect(st, j, c, CleanTurn(st, j, c, l))
    ensures CleanTurn(st, j, c, l).Ended? ==> CleanTurn(st, j, c, l).owned == j.owned
  {
  }

  lemma CleanReplyEffect(st: Stage, j: Job, c: Control, ok: bool)
    requires ControlInv(st, j, c)
    ensures CleanReply(st, j, c, ok).Cleaning?
    ensures !(st.RollRemove? && ok) ==> QuietEffect(st, j, c, CleanReply(st, j, c, ok))
  {
  }

  lemma CleaningReplyKeepsLog(s: State, ok: bool)
    requires s.flow.Cleaning? && FlowInv(s) && LogInv(s)
    ensures LogInv(Step(s, Reply(ok)))
  {
    var st, j, c := s.flow.stage, s.flow.job, s.flow.control;
    if st.RollRemove? && ok {
      ReadKeepsJustified(s.log, Acked(RemoveDevice), s.target.device.controller);
    } else {
      CleanReplyEffect(st, j, c, ok);
      assert s.log + [] == s.log;
    }
  }

  lemma CleaningQuietKeepsLog(s: State, e: Event)
    requires s.flow.Cleaning? && FlowInv(s) && LogInv(s) && !e.Objects? && !e.Reply?
    ensures LogInv(Step(s, e))
  {
    var st, j, c := s.flow.stage, s.flow.job, s.flow.control;
    CleanTurnEffect(st, j, c, s.ledger);
    assert s.log + [] == s.log;
    if j.owned {
      assert s.log[3] == Acked(Pair);
    }
  }

  lemma StepKeepsLog(s: State, e: Event)
    requires FlowInv(s) && LogInv(s)
    ensures LogInv(Step(s, e))
  {
    if s.flow.Ended? {
      assert s.log + [] == s.log;
    } else if s.flow.Guarded? {
      match e {
        case Objects(path, v) => GuardedReadKeepsLog(s, path, v);
        case Reply(ok) => GuardedReplyKeepsLog(s, ok);
        case _ => GuardedQuietKeepsLog(s, e);
      }
    } else {
      match e {
        case Objects(path, v) => CleaningReadKeepsLog(s, path, v);
        case Reply(ok) => CleaningReplyKeepsLog(s, ok);
        case _ => CleaningQuietKeepsLog(s, e);
      }
    }
  }

  // While Pair() is still ahead or pending, no retained proof shares the device.
  lemma ResolveKeepsLedger(s: State, path: DevicePath, v: View)
    requires s.flow == Guarded(Resolve) && LedgerInv(s)
    ensures LedgerInv(Step(s, Objects(path, v)))
  {
    AdmittedIsUnambiguous(s.ledger, CandidateAt(s, path, v));
  }

  lemma ReVerifyKeepsLedger(s: State, path: DevicePath, v: View)
    requires s.flow == Guarded(ReVerify) && LedgerInv(s)
    ensures LedgerInv(Step(s, Objects(path, v)))
  {
    AdmittedIsUnambiguous(s.ledger, CandidateAt(s, path, v));
    assert NextFlow(s, Objects(path, v)).Cleaning?;
    assert Sound(NextLedger(s, Objects(path, v)));
  }

  lemma OtherReadKeepsLedger(s: State, path: DevicePath, v: View)
    requires s.flow.Guarded? && !s.flow.at.Resolve? && !s.flow.at.ReVerify? && LedgerInv(s)
    ensures LedgerInv(Step(s, Objects(path, v)))
  {
    assert NextLedger(s, Objects(path, v)) == s.ledger;
    assert NextTarget(s, Objects(path, v)) == s.target;
  }

  lemma GuardedReadKeepsLedger(s: State, path: DevicePath, v: View)
    requires s.flow.Guarded? && LedgerInv(s)
    ensures LedgerInv(Step(s, Objects(path, v)))
  {
    match s.flow.at {
      case Resolve => ResolveKeepsLedger(s, path, v);
      case ReVerify => ReVerifyKeepsLedger(s, path, v);
      case _ => OtherReadKeepsLedger(s, path, v);
    }
  }

  lemma GuardedQuietKeepsLedger(s: State, e: Event)
    requires s.flow.Guarded? && LedgerInv(s) && !e.Objects? && !e.ProofReleased?
    ensures LedgerInv(Step(s, e))
  {
  }

  lemma ReleaseKeepsLedger(s: State, key: Key)
    requires LedgerInv(s)
    ensures LedgerInv(Step(s, ProofReleased(key)))
  {
    ReleaseKeepsSound(s.ledger, {key});
  }

  /** The outcome and the ledger after the attempt's last step, for every way cleanup can have gone. */
  lemma OutcomeSettles(t: Target, j: Job, c: Control, l: Ledger)
    requires JobInv(t, j) && ControlInv(Settled, j, c) && Sound(l)
    ensures Sound(LedgerAfter(OutcomeOf(j, c, l), l))
    ensures var o := OutcomeOf(j, c, l);
            if !j.owned then
              && (o.CancelledOut? <==> c.interrupted || j.verdict.Interrupted?)
              && (o.Delivered? <==> !c.interrupted && j.verdict.Ready? && Matching(l, j.bond) == {})
              && (o.Delivered? ==> o == Delivered(j.bond, false)) && !o.Incomplete? && LedgerAfter(o, l) == l
            else if c.succeeded then
              && (o.CancelledOut? <==> c.interrupted || j.verdict.Interrupted?)
              && (o.Raised? <==> !c.interrupted && j.verdict.Failed?) && LedgerAfter(o, l) == l
            else
              && o == (if j.verdict.Ready? then Delivered(j.bond, true) else Incomplete(j.bond))
              && Contains(LedgerAfter(o, l), o.bond) && ProofOf(t, o.bond)
  {
    if j.owned {
      RecordKeepsSound(l, j.bond);
    }
  }

  lemma CleaningKeepsLedger(s: State, e: Event)
    requires s.flow.Cleaning? && FlowInv(s) && LedgerInv(s) && !e.ProofReleased?
    ensures LedgerInv(Step(s, e))
  {
    if s.flow.stage.Settled? && e.Turn? {
      OutcomeSettles(s.target, s.flow.job, s.flow.control, s.ledger);
    } else {
      assert NextLedger(s, e) == s.ledger;
    }
  }

  lemma TurnSettles(s: State)
    requires Inv(s) && s.flow.Cleaning? && s.flow.stage.Settled?
    ensures Settlement(Step(s, Turn))
  {
    OutcomeSettles(s.target, s.flow.job, s.flow.control, s.ledger);
    assert s.log + [] == s.log;
  }

  lemma GuardedSettles(s: State, e: Event)
    requires s.flow.Guarded?
    ensures Settlement(Step(s, e))
  {
  }

  lemma StepSettles(s: State, e: Event)
    requires Inv(s)
    ensures Settlement(Step(s, e))
  {
    match s.flow {
      case Guarded(_) => GuardedSettles(s, e);
      case Cleaning(stage, _, _) =>
        if stage.Settled? && e.Turn? {
          TurnSettles(s);
        } else {
          assert !NextFlow(s, e).Ended?;
        }
      case Ended(_, _) =>
        assert s.log + [] == s.log;
        assert Step(s, e) == s;
    }
  }

  lemma StepKeepsInv(s: State, e: Event)
    requires Inv(s)
    ensures Inv(Step(s, e))
  {
    StepKeepsFlow(s, e);
    StepKeepsLog(s, e);
    StepSettles(s, e);
    if e.ProofReleased? {
      ReleaseKeepsLedger(s, e.key);
    } else if s.flow.Cleaning? {
      CleaningKeepsLedger(s, e);
    } else if s.flow.Guarded? {
      if e.Objects? {
        GuardedReadKeepsLedger(s, e.path, e.view);
      } else {
        GuardedQuietKeepsLedger(s, e);
      }
    }
  }
}
