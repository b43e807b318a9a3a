/**
One Bluetooth pairing transaction: the flow that calls BlueZ and the shielded cleanup task that
commits or rolls back, as a state machine over the steps between two awaits.

BlueZ answers anything at all.  A cancellation may arrive at every await, any number of times, and
other flows may release retained proofs at every step; the process-wide pairing lock keeps other
transactions out.  A failing plain call stands for an error reply, a timeout and a lost bus alike.
*/
module Pairing {
  import opened Basics
  import opened BondLedger

  // Advertised services: none reported, the Meshtastic service among them, or only others.
  datatype Services = Unreported | Meshtastic | Foreign

  datatype Facts = Facts(
    address: string, controller: string, paired: bool, trusted: bool, services: Services, powered: bool)

  // What one read of the managed objects says about the selected Device1 path.
  datatype View = Unreadable | Missing | Seen(facts: Facts)

  datatype Call = Pair | Trust | CancelPairing | RemoveDevice

  // The device traffic of one transaction, in order.
  datatype Entry = Read(view: View) | Sent(call: Call) | Acked(call: Call)

  datatype Event =
    | Reply(ok: bool)
    | Owner(owner: Option<string>)
    | Objects(path: DevicePath, view: View)
    | Turn
    | Cancel
    | ProofReleased(key: Key)

  // The awaits of the guarded part.
  datatype Await =
    | OpenBus | GetOwner | Resolve | ReOwner | ReVerify
    | Register | OwnerBefore | PrePair | Pairing | Trusting | OwnerAfter | Verifying

  // The awaits of the cleanup task; Settled is the flow's own last one.
  datatype Stage =
    | CleanStart | CleanProbe | CleanCancel
    | RollRead(late: bool) | RollRemove(late: bool) | RollCheck(late: bool)
    | Unregister | Disconnect | Settled

  // The selected device, as resolved.
  datatype Target = Target(address: string, owner: string, path: DevicePath, device: Facts)

  datatype Verdict = Ready(created: bool) | Failed | Interrupted

  /** What the guarded part hands to cleanup: owned means that our Pair() call returned success on a
      device that was not paired before. */
  datatype Job = Job(owned: bool, bond: Bond, verdict: Verdict, registered: bool, cancelPairing: bool)

  datatype Control = Control(attempted: bool, succeeded: bool, requested: bool, interrupted: bool, committed: bool)

  datatype Outcome = Delivered(bond: Bond, created: bool) | Raised | CancelledOut | Incomplete(bond: Bond)

  datatype Flow =
    | Guarded(at: Await)
    | Cleaning(stage: Stage, job: Job, control: Control)
    | Ended(owned: bool, outcome: Outcome)

  datatype State = State(flow: Flow, target: Target, ledger: Ledger, log: seq<Entry>)

  function Start(address: string, ledger: Ledger): State {
    var nobody := Facts("", "", false, false, Unreported, false);
    State(Guarded(OpenBus), Target(address, "", DevicePath("", ""), nobody), ledger, [])
  }

  // ---------------------------------------------------------------- the guarded part

  function BondFor(t: Target, f: Facts): Bond {
    Bond(f.address, t.path.hci, f.controller, Some(t.path), Some(t.owner))
  }

  predicate PairAcked(a: Await) {
    a.Trusting? || a.OwnerAfter? || a.Verifying?
  }

  predicate AgentRegistered(a: Await) {
    a.OwnerBefore? || a.PrePair? || a.Pairing? || PairAcked(a)
  }

  function Leave(a: Await, bond: Bond, v: Verdict): Flow {
    Cleaning(CleanStart,
             Job(PairAcked(a), bond, v, AgentRegistered(a), a.Pairing? && v.Interrupted?),
             Control(false, false, false, false, false))
  }

  // The transaction failed or was cancelled while waiting at a.
  function Abandon(a: Await, t: Target, v: Verdict): Flow {
    if a.OpenBus? then Ended(false, if v.Interrupted? then CancelledOut else Raised)
    else Leave(a, BondFor(t, t.device), v)
  }

  // Before Pair() the address must still be the selected one, and the path must spell it unless already bonded.
  predicate Selected(t: Target, path: DevicePath, f: Facts) {
    f.address == t.address && (path.suffix == t.address || f.paired)
  }

  predicate SameController(t: Target, f: Facts) {
    f.controller == t.device.controller
  }

  predicate Resolvable(t: Target, path: DevicePath, v: View) {
    && v.Seen? && Selected(t, path, v.facts) && v.facts.powered
    && (if v.facts.paired then v.facts.services.Meshtastic? else !v.facts.services.Foreign?)
  }

  predicate ReVerifiable(t: Target, v: View) {
    v.Seen? && Selected(t, t.path, v.facts) && v.facts.powered && SameController(t, v.facts) && v.facts.paired
  }

  predicate Pairable(t: Target, v: View) {
    && v.Seen? && Selected(t, t.path, v.facts) && v.facts.powered && SameController(t, v.facts)
    && !v.facts.paired && !v.facts.services.Foreign?
  }

  predicate Readable(t: Target, v: View) {
    v.Seen? && v.facts.powered && SameController(t, v.facts)
  }

  predicate Bonded(f: Facts) {
    f.paired && f.trusted && f.services.Meshtastic?
  }

  function AfterCall(a: Await, t: Target, ok: bool): Flow {
    if !ok then Abandon(a, t, Failed) else
    match a
    case OpenBus => Guarded(GetOwner)
    case Register => Guarded(OwnerBefore)
    case Pairing => Guarded(Trusting)
    case Trusting => Guarded(OwnerAfter)
    case _ => Guarded(a)
  }

  function AfterOwner(a: Await, t: Target, owner: Option<string>): Flow {
    if a.GetOwner? then if owner.Some? then Guarded(Resolve) else Abandon(a, t, Failed)
    else if owner != Some(t.owner) then Abandon(a, t, Failed)
    else Guarded(if a.ReOwner? then ReVerify else if a.OwnerBefore? then PrePair else Verifying)
  }

  // The bond whose device an earlier transaction might still control, checked at a and the current read.
  predicate ChecksCandidate(a: Await, t: Target, path: DevicePath, v: View) {
    (a.Resolve? && Resolvable(t, path, v) && !v.facts.paired) || (a.ReVerify? && ReVerifiable(t, v))
  }

  function AfterObjects(a: Await, t: Target, v: View, resolvable: bool, admitted: bool): Flow {
    match a
    case Resolve =>
      if !resolvable || !v.Seen? || (!v.facts.paired && !admitted) then Abandon(a, t, Failed)
      else Guarded(if v.facts.paired then ReOwner else Register)
    case ReVerify =>
      if ReVerifiable(t, v) && admitted then Leave(a, BondFor(t, v.facts), Ready(false)) else Abandon(a, t, Failed)
    case PrePair => if Pairable(t, v) then Guarded(Pairing) else Abandon(a, t, Failed)
    case Verifying =>
      if !Readable(t, v) then Abandon(a, t, Failed)
      else Leave(a, BondFor(t, v.facts), if Bonded(v.facts) then Ready(true) else Failed)
    case _ => Guarded(a)
  }

  // ---------------------------------------------------------------- the cleanup task

  predicate Rollback(j: Job) {
    j.owned && !j.verdict.Ready?
  }

  function CommitPoint(j: Job, c: Control): Flow {
    var committed := j.owned
                     && ((!Rollback(j) && (!c.requested || (c.attempted && !c.succeeded)))
                         || (Rollback(j) && c.attempted && !c.succeeded));
    Cleaning(Disconnect, j, c.(committed := committed))
  }

  // The last ownership decision while the bus is usable.
  function Close(j: Job, c: Control): Flow {
    if !c.attempted && c.requested then Cleaning(RollRead(true), j, c.(attempted := true)) else CommitPoint(j, c)
  }

  function DropAgent(j: Job, c: Control): Flow {
    if j.registered then Cleaning(Unregister, j, c) else Close(j, c)
  }

  function Decide(j: Job, c: Control): Flow {
    if Rollback(j) || c.requested then Cleaning(RollRead(false), j, c.(attempted := true)) else DropAgent(j, c)
  }

  function Rolled(late: bool, j: Job, c: Control, clear: bool): Flow {
    var r := c.(succeeded := clear);
    if late then CommitPoint(j, r) else DropAgent(j, r)
  }

  predicate IsClear(v: View) {
    v.Missing? || (v.Seen? && !v.facts.paired)
  }

  // A fresh read shows our bond still in place on its own controller.
  predicate Removable(t: Target, v: View) {
    v.Seen? && SameController(t, v.facts) && v.facts.paired
  }

  predicate ClearAtOnce(t: Target, v: View) {
    v.Missing? || (v.Seen? && SameController(t, v.facts) && !v.facts.paired)
  }

  function CleanObjects(st: Stage, t: Target, j: Job, c: Control, v: View): Flow {
    match st
    case CleanProbe => if v.Seen? && SameController(t, v.facts) then Cleaning(CleanCancel, j, c) else Decide(j, c)
    case RollRead(late) =>
      if Removable(t, v) then Cleaning(RollRemove(late), j, c) else Rolled(late, j, c, ClearAtOnce(t, v))
    case RollCheck(late) => Rolled(late, j, c, IsClear(v))
    case _ => Cleaning(st, j, c)
  }

  function CleanReply(st: Stage, j: Job, c: Control, ok: bool): Flow {
    match st
    case CleanCancel => Decide(j, c)
    case RollRemove(late) => if ok then Cleaning(RollCheck(late), j, c) else Rolled(late, j, c, false)
    case Unregister => Close(j, c)
    case Disconnect => Cleaning(Settled, j, c)
    case _ => Cleaning(st, j, c)
  }

  function CleanTurn(st: Stage, j: Job, c: Control, l: Ledger): Flow {
    match st
    case CleanStart => if j.cancelPairing then Cleaning(CleanProbe, j, c) else Decide(j, c)
    case Settled => Ended(j.owned, OutcomeOf(j, c, l))
    case _ => Cleaning(st, j, c)
  }

  function CleanCancelled(j: Job, c: Control): Control {
    if j.owned && c.committed then c else c.(requested := c.requested || j.owned, interrupted := true)
  }

  // What the attempt ends with; it records or rejects the result before it yields again.
  function OutcomeOf(j: Job, c: Control, l: Ledger): Outcome {
    if c.interrupted && !c.committed then CancelledOut
    else if Rollback(j) && !c.succeeded then Incomplete(j.bond)
    else
      match j.verdict
      case Failed => Raised
      case Interrupted => CancelledOut
      case Ready(created) => if created || Matching(l, j.bond) == {} then Delivered(j.bond, created) else Raised
  }

  function LedgerAfter(o: Outcome, l: Ledger): Ledger {
    match o
    case Incomplete(b) => if Contains(l, b) then l else Record(l, b)
    case Delivered(b, true) => Record(l, b)
    case _ => l
  }

  // ---------------------------------------------------------------- one step

  function NextFlow(s: State, e: Event): Flow {
    match s.flow
    case Ended(_, _) => s.flow
    case Guarded(a) => (
      match e
      case Reply(ok) => if WaitsForCall(a) then AfterCall(a, s.target, ok) else s.flow
      case Owner(owner) => if WaitsForOwner(a) then AfterOwner(a, s.target, owner) else s.flow
      case Objects(path, v) =>
        AfterObjects(a, s.target, v, Resolvable(s.target, path, v), Admit(s.ledger, CandidateAt(s, path, v)).1)
      case Cancel => Abandon(a, s.target, Interrupted)
      case _ => s.flow)
    case Cleaning(st, j, c) => (
      match e
      case Reply(ok) => CleanReply(st, j, c, ok)
      case Objects(_, v) => CleanObjects(st, s.target, j, c, v)
      case Turn => CleanTurn(st, j, c, s.ledger)
      case Cancel => Cleaning(st, j, CleanCancelled(j, c))
      case _ => s.flow)
  }

  predicate WaitsForCall(a: Await) {
    a.OpenBus? || a.Register? || a.Pairing? || a.Trusting?
  }

  predicate WaitsForOwner(a: Await) {
    a.GetOwner? || a.ReOwner? || a.OwnerBefore? || a.OwnerAfter?
  }

  function NextTarget(s: State, e: Event): Target {
    match e
    case Owner(Some(owner)) => if s.flow == Guarded(GetOwner) then s.target.(owner := owner) else s.target
    case Objects(path, Seen(f)) =>
      if s.flow == Guarded(Resolve) then s.target.(path := path, device := f) else s.target
    case _ => s.target
  }

  function CandidateAt(s: State, path: DevicePath, v: View): Bond {
    if !v.Seen? then BondFor(s.target, s.target.device)
    else if s.flow == Guarded(Resolve) then BondFor(s.target.(path := path), v.facts)
    else BondFor(s.target, v.facts)
  }

  function NextLedger(s: State, e: Event): Ledger {
    match e
    case ProofReleased(k) => if s.flow.Ended? then s.ledger else Release(s.ledger, {k})
    case Objects(path, v) =>
      if s.flow.Guarded? && ChecksCandidate(s.flow.at, s.target, path, v)
      then Admit(s.ledger, CandidateAt(s, path, v)).0 else s.ledger
    case Turn =>
      if s.flow.Cleaning? && s.flow.stage.Settled?
      then LedgerAfter(OutcomeOf(s.flow.job, s.flow.control, s.ledger), s.ledger) else s.ledger
    case _ => s.ledger
  }

  // The device traffic that one step adds.
  function Traffic(s: State, e: Event): seq<Entry> {
    match s.flow
    case Ended(_, _) => []
    case Guarded(a) => (
      match e
      case Objects(_, v) =>
        if a.PrePair? && Pairable(s.target, v) then [Read(v), Sent(Pair)]
        else if a.Resolve? || a.ReVerify? || a.PrePair? || a.Verifying? then [Read(v)] else []
      case Reply(true) => if a.Pairing? then [Acked(Pair), Sent(Trust)] else []
      case _ => [])
    case Cleaning(st, _, _) => (
      match e
      case Objects(_, v) =>
        if st.CleanProbe? then
          if v.Seen? && SameController(s.target, v.facts) then [Read(v), Sent(CancelPairing)] else [Read(v)]
        else if st.RollRead? then if Removable(s.target, v) then [Read(v), Sent(RemoveDevice)] else [Read(v)]
        else if st.RollCheck? then [Read(v)] else []
      case Reply(true) => if st.RollRemove? then [Acked(RemoveDevice)] else []
      case _ => [])
  }

  function Step(s: State, e: Event): State {
    State(NextFlow(s, e), NextTarget(s, e), NextLedger(s, e), s.log + Traffic(s, e))
  }

  function Run(s: State, events: seq<Event>): State
    decreases |events|
  {
    if events == [] then s else Run(Step(s, events[0]), events[1..])
  }
}
