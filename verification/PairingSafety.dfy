/**
What every run of a pairing attempt keeps: no bond is orphaned, and the device traffic is justified.
*/
module PairingSafety {
  import opened Basics
  import opened BondLedger
  import opened Attempt = Pairing
  import opened PairingInvariant

  lemma {:induction false} RunKeepsInv(s: State, events: seq<Event>)
    requires Inv(s)
    ensures Inv(Run(s, events))
    decreases |events|
  {
    if events != [] {
      StepKeepsInv(s, events[0]);
      RunKeepsInv(Step(s, events[0]), events[1..]);
    }
  }

  // Every proof of the second ledger is one of the first.
  ghost predicate Shrunk(l: Ledger, m: Ledger) {
    forall k | k in m.bonds :: k in l.bonds && BondOf(l, k) == BondOf(m, k)
  }

  lemma AdmissionShrinks(l: Ledger, c: Bond)
    ensures Shrunk(l, Admit(l, c).0)
  {
  }

  lemma StepShrinks(s: State, e: Event)
    requires Inv(s)
    ensures Shrunk(s.ledger, Step(s, e).ledger) || Held(Step(s, e))
  {
    match s.flow {
      case Ended(_, _) => assert Step(s, e).ledger == s.ledger;
      case Guarded(a) => if e.Objects? { AdmissionShrinks(s.ledger, CandidateAt(s, e.path, e.view)); }
      case Cleaning(stage, job, control) =>
        if stage.Settled? && e.Turn? {
          SettlingShrinks(s);
        }
    }
  }

  lemma SettlingShrinks(s: State)
    requires Inv(s) && s.flow.Cleaning? && s.flow.stage.Settled?
    ensures Shrunk(s.ledger, Step(s, Turn).ledger) || Held(Step(s, Turn))
  {
    var o := OutcomeOf(s.flow.job, s.flow.control, s.ledger);
    OutcomeSettles(s.target, s.flow.job, s.flow.control, s.ledger);
    if o.Raised? || o.CancelledOut? || (o.Delivered? && !o.created) {
      assert Step(s, Turn).ledger == s.ledger;
    } else {
      assert Step(s, Turn).flow == Ended(s.flow.job.owned, o);
    }
  }

  lemma {:induction false} RunShrinks(s: State, events: seq<Event>)
    requires Inv(s)
    ensures Shrunk(s.ledger, Run(s, events).ledger) || Held(Run(s, events))
    decreases |events|
  {
    if events != [] {
      StepKeepsInv(s, events[0]);
      StepShrinks(s, events[0]);
      if s.flow.Ended? {
        EndedStays(s, events);
      } else {
        RunShrinks(Step(s, events[0]), events[1..]);
        if Held(Step(s, events[0])) {
          EndedStays(Step(s, events[0]), events[1..]);
        }
      }
    }
  }

  lemma {:induction false} EndedStays(s: State, events: seq<Event>)
    requires s.flow.Ended?
    ensures Run(s, events) == s
    decreases |events|
  {
    if events != [] {
      assert s.log + [] == s.log;
      assert Step(s, events[0]) == s;
      EndedStays(s, events[1..]);
    }
  }

  /** No orphaned bond.  Whatever BlueZ answers and wherever cancellations land: once our Pair() has
      been acknowledged, a finished attempt either holds the bond's proof in the ledger, or has
      verified that the bond is gone and raised, with nothing recorded; never both. */
  lemma NoOrphanedBond(address: string, ledger: Ledger, events: seq<Event>)
    requires Sound(ledger)
    ensures var end := Run(Start(address, ledger), events);
            end.flow.Ended? ==>
              && Sound(end.ledger)
              && (Acked(Pair) in end.log ==> (Held(end) <==> !Undone(end)))
              && (Acked(Pair) !in end.log ==> !Held(end))
              && (!Held(end) ==> Shrunk(ledger, end.ledger))
  {
    RunKeepsInv(Start(address, ledger), events);
    RunShrinks(Start(address, ledger), events);
  }

  /** In every reachable state Pair() and RemoveDevice were sent at most once each: Pair() after two
      reads of an unpaired device on one controller, RemoveDevice after our acknowledged Pair() and
      directly after a read of a paired device on that controller.  While Pair() is ahead or pending
      no other transaction's retained proof shares its device. */
  lemma TrafficStaysOwned(address: string, ledger: Ledger, events: seq<Event>)
    requires Sound(ledger)
    ensures var s := Run(Start(address, ledger), events);
            && Justified(s.log, s.target.device.controller)
            && (s.flow.Guarded? && AwaitsPair(s.flow.at) ==>
                  Matching(s.ledger, BondFor(s.target, s.target.device)) == {})
  {
    RunKeepsInv(Start(address, ledger), events);
    var s := Run(Start(address, ledger), events);
    if s.flow.Guarded? {
      GuardedIsJustified(s.flow.at, s.target, s.log);
    }
  }
}
