/**
Particular runs of one pairing attempt: the one without trouble, those that end without the bond's proof and
what they may have read last, and why every attempt comes to an end.
*/
module PairingRuns {
  import opened Basics
  import opened BondLedger
  import opened Attempt = Pairing
  import opened PairingInvariant
  import opened PairingSafety

  // ---------------------------------------------------------------- the run without trouble

  lemma {:induction false} RunAppend(s: State, a: seq<Event>, b: seq<Event>)
    ensures Run(s, a + b) == Run(Run(s, a), b)
    decreases |a|
  {
    if a == [] {
      assert a + b == b;
    } else {
      assert (a + b)[1..] == a[1..] + b;
      RunAppend(Step(s, a[0]), a[1..], b);
    }
  }

  lemma RunThree(s: State, a: Event, b: Event, c: Event)
    ensures Run(s, [a, b, c]) == Step(Step(Step(s, a), b), c)
  {
    assert [a, b, c][1..] == [b, c] && [b, c][1..] == [c] && [c][1..] == [];
    assert Run(Step(Step(s, a), b), [c]) == Step(Step(Step(s, a), b), c);
  }

  // The state but for its log.
  predicate Stands(s: State, f: Flow, t: Target, l: Ledger) {
    s.flow == f && s.target == t && s.ledger == l
  }

  // A call answered, the same owner, and a read of the target: how resolving and checking both go.
  function CallOwnerRead(t: Target): seq<Event> {
    [Reply(true), Owner(Some(t.owner)), Objects(t.path, Seen(t.device))]
  }

  function Trusted(t: Target): seq<Event> {
    [Reply(true), Reply(true), Owner(Some(t.owner))]
  }

  // The last read, the end of the guarded part, and the agent taken away.
  function Closing(t: Target, bonded: Facts): seq<Event> {
    [Objects(t.path, Seen(bonded)), Turn, Reply(true)]
  }

  predicate FreshTarget(t: Target, bonded: Facts) {
    && t.path.suffix == t.address == t.device.address
    && t.device.powered && !t.device.paired && !t.device.services.Foreign?
    && bonded.powered && bonded.controller == t.device.controller
    && bonded.paired && bonded.trusted && bonded.services.Meshtastic?
  }

  lemma ResolvingStands(t: Target, l: Ledger, bonded: Facts)
    requires FreshTarget(t, bonded) && Matching(l, BondFor(t, t.device)) == {}
    ensures Stands(Run(Start(t.address, l), CallOwnerRead(t)), Guarded(Register), t, l)
  {
    var s0 := Start(t.address, l);
    var s1 := Step(s0, Reply(true));
    var s2 := Step(s1, Owner(Some(t.owner)));
    var s3 := Step(s2, Objects(t.path, Seen(t.device)));
    assert Stands(s2, Guarded(Resolve), s0.target.(owner := t.owner), l);
    RunThree(s0, Reply(true), Owner(Some(t.owner)), Objects(t.path, Seen(t.device)));
  }

  lemma CheckingStands(s: State, t: Target, l: Ledger, bonded: Facts)
    requires FreshTarget(t, bonded) && Stands(s, Guarded(Register), t, l)
    ensures Stands(Run(s, CallOwnerRead(t)), Guarded(Pairing), t, l)
  {
    RunThree(s, Reply(true), Owner(Some(t.owner)), Objects(t.path, Seen(t.device)));
    var s2 := Step(Step(s, Reply(true)), Owner(Some(t.owner)));
    assert Stands(s2, Guarded(PrePair), t, l);
  }

  lemma TrustedStands(s: State, t: Target, l: Ledger)
    requires Stands(s, Guarded(Pairing), t, l)
    ensures Stands(Run(s, Trusted(t)), Guarded(Verifying), t, l)
  {
    RunThree(s, Reply(true), Reply(true), Owner(Some(t.owner)));
  }

  lemma ClosingStands(s: State, t: Target, l: Ledger, bonded: Facts)
    requires FreshTarget(t, bonded) && Stands(s, Guarded(Verifying), t, l)
    ensures Stands(Run(s, Closing(t, bonded)),
                   Cleaning(Disconnect, Job(true, BondFor(t, bonded), Ready(true), true, false),
                            Control(false, false, false, false, true)), t, l)
  {
    var s1 := Step(s, Objects(t.path, Seen(bonded)));
    var job := Job(true, BondFor(t, bonded), Ready(true), true, false);
    var idle := Control(false, false, false, false, false);
    assert Stands(s1, Cleaning(CleanStart, job, idle), t, l);
    assert Stands(Step(s1, Turn), Cleaning(Unregister, job, idle), t, l);
    RunThree(s, Objects(t.path, Seen(bonded)), Turn, Reply(true));
  }

  /** The run the protocol is for: with every call acknowledged, an unpaired radio and no earlier proof of
      it, the attempt delivers the new bond, under the address read last, and the ledger holds its proof. */
  lemma CleanRunDelivers(t: Target, l: Ledger, bonded: Facts)
    requires FreshTarget(t, bonded) && Sound(l) && Matching(l, BondFor(t, t.device)) == {}
    ensures var end := Run(Start(t.address, l), CallOwnerRead(t) + CallOwnerRead(t) + Trusted(t)
                                                + Closing(t, bonded) + [Reply(true), Turn]);
            && end.flow == Ended(true, Delivered(BondFor(t, bonded), true))
            && Held(end)
  {
    var s0 := Start(t.address, l);
    var a, b, c, d := CallOwnerRead(t), CallOwnerRead(t), Trusted(t), Closing(t, bonded);
    ResolvingStands(t, l, bonded);
    CheckingStands(Run(s0, a), t, l, bonded);
    RunAppend(s0, a, b);
    TrustedStands(Run(s0, a + b), t, l);
    RunAppend(s0, a + b, c);
    ClosingStands(Run(s0, a + b + c), t, l, bonded);
    RunAppend(s0, a + b + c, d);
    RunAppend(s0, a + b + c + d, [Reply(true), Turn]);
    SettledDelivers(Run(s0, a + b + c + d), t, l, bonded);
  }

  lemma SettledDelivers(s: State, t: Target, l: Ledger, bonded: Facts)
    requires Sound(l)
    requires Stands(s, Cleaning(Disconnect, Job(true, BondFor(t, bonded), Ready(true), true, false),
                                Control(false, false, false, false, true)), t, l)
    requires SameController(t, bonded)
    ensures var end := Run(s, [Reply(true), Turn]);
            end.flow == Ended(true, Delivered(BondFor(t, bonded), true)) && Held(end)
  {
    RecordKeepsSound(l, BondFor(t, bonded));
    var s1 := Step(s, Reply(true));
    assert s1.flow.Cleaning? && s1.flow.stage == Settled;
    assert [Reply(true), Turn][1..] == [Turn] && [Turn][1..] == [];
    assert Run(s1, [Turn]) == Step(s1, Turn);
  }

  // ---------------------------------------------------------------- what a rollback may end on

  // The attempt owned a bond and ended without its proof; v is the last it read of the device.
  predicate GaveUpOn(end: State, v: View) {
    end.flow.Ended? && end.flow.owned && !Held(end) && end.log != [] && end.log[|end.log| - 1] == Read(v)
  }

  // No bond is left, on the attempt's own controller unless BlueZ has acknowledged the removal.
  predicate Accepted(t: Target, v: View, removed: bool) {
    v.Missing? || (v.Seen? && !v.facts.paired && (removed || SameController(t, v.facts)))
  }

  lemma GivesUpOnAccepted(address: string, ledger: Ledger, events: seq<Event>)
    requires Sound(ledger)
    ensures var end := Run(Start(address, ledger), events);
            end.flow.Ended? && end.flow.owned && !Held(end) ==>
              exists v :: GaveUpOn(end, v) && Accepted(end.target, v, Acked(RemoveDevice) in end.log)
  {
    var end := Run(Start(address, ledger), events);
    RunKeepsInv(Start(address, ledger), events);
    if end.flow.Ended? && end.flow.owned && !Held(end) {
      var v := end.log[|end.log| - 1].view;
      assert GaveUpOn(end, v);
    }
  }

  function Bonding(f: Facts): Facts {
    f.(paired := true, trusted := true, services := Meshtastic)
  }

  const BEGUN := Control(true, false, false, false, false)
  const CLEARED := Control(true, true, false, false, false)

  function FailedJob(t: Target): Job {
    Job(true, BondFor(t, t.device), Failed, true, false)
  }

  // Pair() succeeds, trusting fails, and cleanup begins to roll back.
  lemma FailedTrustStands(s: State, t: Target, l: Ledger)
    requires Stands(s, Guarded(Pairing), t, l)
    ensures var next := Run(s, [Reply(true), Reply(false), Turn]);
            Stands(next, Cleaning(RollRead(false), FailedJob(t), BEGUN), t, l)
            && next.log == s.log + [Acked(Pair), Sent(Trust)]
  {
    RunThree(s, Reply(true), Reply(false), Turn);
  }

  // With or without a removal, up to the read that is accepted.
  function Removal(t: Target, v: View, removed: bool): seq<Event> {
    if removed then [Objects(t.path, Seen(Bonding(t.device))), Reply(true), Objects(t.path, v)]
    else [Objects(t.path, v)]
  }

  lemma RemovalStands(s: State, t: Target, l: Ledger, v: View, removed: bool)
    requires Stands(s, Cleaning(RollRead(false), FailedJob(t), BEGUN), t, l) && Accepted(t, v, removed)
    ensures var next := Run(s, Removal(t, v, removed));
            Stands(next, Cleaning(Unregister, FailedJob(t), CLEARED), t, l)
            && next.log == s.log + (if removed then [Read(Seen(Bonding(t.device))), Sent(RemoveDevice),
                                                     Acked(RemoveDevice)] else []) + [Read(v)]
  {
    if removed {
      RunThree(s, Objects(t.path, Seen(Bonding(t.device))), Reply(true), Objects(t.path, v));
    } else {
      assert Run(Step(s, Objects(t.path, v)), []) == Step(s, Objects(t.path, v));
    }
  }

  lemma RaisingStands(s: State, t: Target, l: Ledger)
    requires Stands(s, Cleaning(Unregister, FailedJob(t), CLEARED), t, l)
    ensures var end := Run(s, [Reply(true), Reply(true), Turn]);
            Stands(end, Ended(true, Raised), t, l) && end.log == s.log
  {
    RunThree(s, Reply(true), Reply(true), Turn);
  }

  function RollingBack(t: Target, v: View, removed: bool): seq<Event> {
    [Reply(true), Reply(false), Turn] + Removal(t, v, removed) + [Reply(true), Reply(true), Turn]
  }

  function RollTraffic(t: Target, v: View, removed: bool): seq<Entry> {
    [Acked(Pair), Sent(Trust)]
    + (if removed then [Read(Seen(Bonding(t.device))), Sent(RemoveDevice), Acked(RemoveDevice)] else []) + [Read(v)]
  }

  lemma RollingBackEnds(s: State, t: Target, l: Ledger, v: View, removed: bool)
    requires Stands(s, Guarded(Pairing), t, l) && Accepted(t, v, removed)
    ensures var end := Run(s, RollingBack(t, v, removed));
            Stands(end, Ended(true, Raised), t, l) && end.log == s.log + RollTraffic(t, v, removed)
  {
    var c, d := [Reply(true), Reply(false), Turn], Removal(t, v, removed);
    FailedTrustStands(s, t, l);
    RemovalStands(Run(s, c), t, l, v, removed);
    RunAppend(s, c, d);
    RaisingStands(Run(s, c + d), t, l);
    RunAppend(s, c + d, [Reply(true), Reply(true), Turn]);
  }

  lemma ReachesPairing(t: Target, l: Ledger)
    requires FreshTarget(t, Bonding(t.device)) && Sound(l) && Matching(l, BondFor(t, t.device)) == {}
    ensures var s := Run(Start(t.address, l), CallOwnerRead(t) + CallOwnerRead(t));
            Stands(s, Guarded(Pairing), t, l) && Acked(RemoveDevice) !in s.log
  {
    var s0 := Start(t.address, l);
    ResolvingStands(t, l, Bonding(t.device));
    CheckingStands(Run(s0, CallOwnerRead(t)), t, l, Bonding(t.device));
    RunAppend(s0, CallOwnerRead(t), CallOwnerRead(t));
    RunKeepsInv(s0, CallOwnerRead(t) + CallOwnerRead(t));
  }

  function RolledBackRun(t: Target, v: View, removed: bool): seq<Event> {
    CallOwnerRead(t) + CallOwnerRead(t) + RollingBack(t, v, removed)
  }

  lemma RolledBackRunEnds(t: Target, l: Ledger, v: View, removed: bool)
    requires FreshTarget(t, Bonding(t.device)) && Sound(l) && Matching(l, BondFor(t, t.device)) == {}
    requires Accepted(t, v, removed)
    ensures var end := Run(Start(t.address, l), RolledBackRun(t, v, removed));
            GaveUpOn(end, v) && end.target == t && (Acked(RemoveDevice) in end.log <==> removed)
  {
    var s := Run(Start(t.address, l), CallOwnerRead(t) + CallOwnerRead(t));
    ReachesPairing(t, l);
    RollingBackEnds(s, t, l, v, removed);
    RunAppend(Start(t.address, l), CallOwnerRead(t) + CallOwnerRead(t), RollingBack(t, v, removed));
    var traffic := RollTraffic(t, v, removed);
    assert traffic[|traffic| - 1] == Read(v);
    assert removed ==> traffic[4] == Acked(RemoveDevice);
  }

  /** Which last reads let an owned attempt end without the bond's proof: a missing device, an unpaired one
      on the attempt's own controller, and, after an acknowledged RemoveDevice only, an unpaired one on any
      controller. */
  lemma LastReadsAreExact(t: Target, l: Ledger, v: View, removed: bool)
    requires FreshTarget(t, Bonding(t.device)) && Sound(l) && Matching(l, BondFor(t, t.device)) == {}
    ensures (exists events :: var end := Run(Start(t.address, l), events);
               GaveUpOn(end, v) && end.target == t && (Acked(RemoveDevice) in end.log <==> removed))
            <==> Accepted(t, v, removed)
  {
    if events :| var end := Run(Start(t.address, l), events);
                 GaveUpOn(end, v) && end.target == t && (Acked(RemoveDevice) in end.log <==> removed) {
      GivesUpOnAccepted(t.address, l, events);
    }
    if Accepted(t, v, removed) {
      RolledBackRunEnds(t, l, v, removed);
    }
  }

  /** A bond may be reported as rolled back on the word of another controller. */
  lemma SwappedControllerIsAccepted(t: Target, l: Ledger, other: string)
    requires FreshTarget(t, Bonding(t.device)) && Sound(l) && Matching(l, BondFor(t, t.device)) == {}
    requires other != t.device.controller
    ensures var v := Seen(t.device.(controller := other));
            var end := Run(Start(t.address, l), RolledBackRun(t, v, true));
            Undone(end) && GaveUpOn(end, v) && !SameController(end.target, v.facts)
  {
    var events := RolledBackRun(t, Seen(t.device.(controller := other)), true);
    RolledBackRunEnds(t, l, Seen(t.device.(controller := other)), true);
    RunKeepsInv(Start(t.address, l), events);
  }

  // ---------------------------------------------------------------- progress

  function AwaitRank(a: Await): nat {
    match a
    case OpenBus => 24 case GetOwner => 23 case Resolve => 22 case ReOwner => 21 case ReVerify => 20
    case Register => 19 case OwnerBefore => 18 case PrePair => 17 case Pairing => 16
    case Trusting => 15 case OwnerAfter => 14 case Verifying => 13
  }

  function StageRank(st: Stage): nat {
    match st
    case CleanStart => 12 case CleanProbe => 11 case CleanCancel => 10
    case RollRead(late) => if late then 5 else 9
    case RollRemove(late) => if late then 4 else 8
    case RollCheck(late) => if late then 3 else 7
    case Unregister => 6 case Disconnect => 2 case Settled => 1
  }

  function FlowRank(f: Flow): nat {
    match f
    case Guarded(a) => AwaitRank(a)
    case Cleaning(st, _, _) => StageRank(st)
    case Ended(_, _) => 0
  }

  function Rank(s: State): nat {
    FlowRank(s.flow)
  }

  // The event is what the pending await is waiting for.
  predicate Answers(f: Flow, e: Event) {
    match f
    case Ended(_, _) => false
    case Guarded(a) =>
      if WaitsForCall(a) then e.Reply? else if WaitsForOwner(a) then e.Owner? else e.Objects?
    case Cleaning(st, _, _) =>
      if st.CleanStart? || st.Settled? then e.Turn?
      else if st.CleanProbe? || st.RollRead? || st.RollCheck? then e.Objects?
      else e.Reply?
  }

  function AnswerCount(s: State, events: seq<Event>): nat
    decreases |events|
  {
    if events == [] then 0
    else (if Answers(s.flow, events[0]) then 1 else 0) + AnswerCount(Step(s, events[0]), events[1..])
  }

  lemma GuardedLowersRank(a: Await, s: State, e: Event)
    requires s.flow == Guarded(a)
    ensures FlowRank(NextFlow(s, e)) <= AwaitRank(a) - (if Answers(s.flow, e) then 1 else 0)
  {
  }

  lemma CleaningLowersRank(s: State, e: Event)
    requires s.flow.Cleaning? && FlowInv(s)
    ensures FlowRank(NextFlow(s, e)) <= FlowRank(s.flow) - (if Answers(s.flow, e) then 1 else 0)
  {
  }

  lemma StepLowersRank(s: State, e: Event)
    requires FlowInv(s)
    ensures Rank(Step(s, e)) <= Rank(s) - (if Answers(s.flow, e) then 1 else 0)
  {
    match s.flow {
      case Guarded(a) => GuardedLowersRank(a, s, e);
      case Cleaning(_, _, _) => CleaningLowersRank(s, e);
      case Ended(_, _) =>
    }
  }

  lemma {:induction false} RunLowersRank(s: State, events: seq<Event>)
    requires FlowInv(s)
    ensures Rank(Run(s, events)) + AnswerCount(s, events) <= Rank(s)
    decreases |events|
  {
    if events != [] {
      StepLowersRank(s, events[0]);
      StepKeepsFlow(s, events[0]);
      RunLowersRank(Step(s, events[0]), events[1..]);
    }
  }

  /** The attempt cannot be kept from ending: 24 answers finish it, however many cancellations and
      other events are mixed in. */
  lemma AnswersEndTheAttempt(address: string, ledger: Ledger, events: seq<Event>)
    requires AnswerCount(Start(address, ledger), events) >= 24
    ensures Run(Start(address, ledger), events).flow.Ended?
  {
    RunLowersRank(Start(address, ledger), events);
  }
}
