/**
A validated MeshCore settings plan run against one companion radio: grouped commands, each sent once
and read back.  Coordinates are real numbers and the coordinate tolerance is equality; secrets are
byte sequences; a reported parameter that is not an exact integer or boolean is absent.
*/
module MeshCoreSettings {
  import opened Basics

  type Bytes = seq<int>

  datatype Param =
    | AdvertisePosition | TelemetryBase | TelemetryLocation | TelemetryEnvironment | ManualAdd | MultiAcks

  const PARAMS: set<Param> :=
    {AdvertisePosition, TelemetryBase, TelemetryLocation, TelemetryEnvironment, ManualAdd, MultiAcks}

  datatype SelfInfo = SelfInfo(
    name: string, lat: Option<real>, lon: Option<real>, params: map<Param, int>,
    txPower: Option<int>, maxTxPower: Option<int>)

  datatype Channel = Channel(name: string, secret: Option<Bytes>)

  // What the radio holds, and what a live read of it reports.
  datatype Settings = Settings(self: SelfInfo, channels: map<nat, Channel>, pin: Option<int>)

  // Which commands the SDK offers, and the firmware's protocol version.
  datatype Support = Support(
    name: bool, coords: bool, other: bool, txPower: bool, channel: bool, pin: bool, protocol: int)

  datatype Path =
    | NamePath | LatPath | LonPath | ParamPath(param: Param) | TxPath | RadioPath(index: nat)
    | ChannelName(index: nat) | ChannelSecret(index: nat) | PinPath | ReadOnlyPath(detail: string)

  datatype Value =
    | Text(text: string) | Flag(flag: bool) | Whole(whole: int) | Number(number: real)
    | Clear | ReplaceKey(key: Bytes) | ReplacePin(digits: string) | Malformed

  type Plan = map<Path, Value>

  const MAX_CHANGES := 64
  const SECRET_BYTES := 16

  // ---------------------------------------------------------------- validation

  predicate IsTelemetry(p: Param) {
    p.TelemetryBase? || p.TelemetryLocation? || p.TelemetryEnvironment?
  }

  predicate InDomain(p: Param, v: int) {
    v == 0 || v == 1 || (v == 2 && IsTelemetry(p))
  }

  predicate InRange(v: Option<real>, limit: real) {
    v.Some? && -limit <= v.value <= limit
  }

  predicate CoordsSafe(s: SelfInfo) {
    InRange(s.lat, 90.0) && InRange(s.lon, 180.0)
  }

  predicate GroupSafe(params: map<Param, int>) {
    forall p | p in PARAMS :: p in params && InDomain(p, params[p])
  }

  function IntOr(v: Option<int>, default: int): int {
    if v.Some? then v.value else default
  }

  function Utf8Width(c: char): nat {
    if c as int < 0x80 then 1 else if c as int < 0x800 then 2 else if c as int < 0x10000 then 3 else 4
  }

  function Utf8Length(s: string): nat {
    if s == "" then 0 else Utf8Width(s[0]) + Utf8Length(s[1..])
  }

  predicate SafeName(s: string) {
    s != "" && s[0] != '#' && Utf8Length(s) <= 32
  }

  predicate Configured(c: Channel) {
    c.name != "" && c.secret.Some? && |c.secret.value| == SECRET_BYTES && exists b | b in c.secret.value :: b != 0
  }

  predicate Editable(c: Channel) {
    Configured(c) && SafeName(c.name)
  }

  predicate Writable(path: Path, sup: Support, s: Settings) {
    match path
    case NamePath => sup.name
    case LatPath | LonPath => CoordsSafe(s.self) && sup.coords
    case ParamPath(p) => p != MultiAcks && sup.other && sup.protocol >= 7 && GroupSafe(s.self.params)
    case TxPath => sup.txPower && IntOr(s.self.maxTxPower, -1) >= 0
    case ChannelName(i) => i in s.channels && sup.protocol >= 3 && sup.channel && Editable(s.channels[i])
    case ChannelSecret(i) => i in s.channels && sup.protocol >= 3 && sup.channel && Editable(s.channels[i])
    case PinPath => sup.protocol >= 3 && sup.pin
    case RadioPath(_) => false
    case ReadOnlyPath(_) => false
  }

  function AsNumber(v: Value): Option<real> {
    match v
    case Whole(i) => Some(i as real)
    case Number(r) => Some(r)
    case _ => None
  }

  predicate IsDigit(c: char) {
    '0' <= c <= '9'
  }

  predicate IsPin(s: string) {
    |s| == 6 && s[0] != '0' && forall c | c in s :: IsDigit(c)
  }

  // The select test compares with ==, so a boolean or an integral float passes it.
  predicate InSelect(v: Value) {
    match v
    case Whole(i) => 0 <= i <= 2
    case Flag(_) => true
    case Number(r) => r == 0.0 || r == 1.0 || r == 2.0
    case _ => false
  }

  predicate Accepts(path: Path, v: Value, s: Settings) {
    match path
    case NamePath => v.Text? && |v.text| <= 32 && v.text != "" && Utf8Length(v.text) <= 32
    case LatPath => InRange(AsNumber(v), 90.0)
    case LonPath => InRange(AsNumber(v), 180.0)
    case ParamPath(p) => if IsTelemetry(p) then InSelect(v) else v.Flag?
    case TxPath => v.Whole? && 0 <= v.whole <= IntOr(s.self.maxTxPower, -1)
    case ChannelName(_) => v.Text? && |v.text| <= 32 && SafeName(v.text)
    case ChannelSecret(_) => v.ReplaceKey? && |v.key| == SECRET_BYTES
    case PinPath => v.Clear? || (v.ReplacePin? && IsPin(v.digits))
    case RadioPath(_) => false
    case ReadOnlyPath(_) => false
  }

  predicate ValidPlan(plan: Plan, sup: Support, s: Settings) {
    && 0 < |plan| <= MAX_CHANGES
    && forall path | path in plan :: Writable(path, sup, s) && Accepts(path, plan[path], s)
  }

  /** The validation loop, then the whole-group checks of the values a grouped command would rewrite;
      those never reject a plan whose single entries were accepted. */
  method ValidatePlan(plan: Plan, sup: Support, s: Settings) returns (ok: bool)
    ensures ok <==> ValidPlan(plan, sup, s)
  {
    if plan == map[] || |plan| > MAX_CHANGES {
      return false;
    }
    var rest := plan.Keys;
    while rest != {}
      invariant rest <= plan.Keys
      invariant forall path | path in plan.Keys - rest :: Writable(path, sup, s) && Accepts(path, plan[path], s)
      decreases rest
    {
      var path :| path in rest;
      if !Writable(path, sup, s) || !Accepts(path, plan[path], s) {
        return false;
      }
      rest := rest - {path};
    }
    if LatPath in plan || LonPath in plan {
      var lat := if LatPath in plan then AsNumber(plan[LatPath]) else s.self.lat;
      var lon := if LonPath in plan then AsNumber(plan[LonPath]) else s.self.lon;
      if !InRange(lat, 90.0) || !InRange(lon, 180.0) {
        return false;
      }
    }
    rest := plan.Keys;
    while rest != {}
      invariant rest <= plan.Keys
      decreases rest
    {
      var path :| path in rest;
      rest := rest - {path};
      if path.ChannelSecret? {
        var name := if ChannelName(path.index) in plan then plan[ChannelName(path.index)]
                    else Text(s.channels[path.index].name);
        if !name.Text? || name.text == "" {
          return false;
        }
      }
    }
    return true;
  }

  // ---------------------------------------------------------------- commands

  datatype Group = NameGroup | CoordGroup | OtherGroup | TxGroup | ChannelGroup(index: nat) | PinGroup

  datatype Command =
    | SetName(name: string)
    | SetCoords(lat: real, lon: real)
    | SetOther(params: map<Param, int>)
    | SetTxPower(power: int)
    | SetChannel(index: nat, channel: Channel)
    | SetPin(pin: int)

  function PathsOf(g: Group, plan: Plan): set<Path> {
    match g
    case NameGroup => {NamePath} * plan.Keys
    case CoordGroup => {LatPath, LonPath} * plan.Keys
    case OtherGroup => (set p | p in PARAMS - {MultiAcks} :: ParamPath(p)) * plan.Keys
    case TxGroup => {TxPath} * plan.Keys
    case ChannelGroup(i) => {ChannelName(i), ChannelSecret(i)} * plan.Keys
    case PinGroup => {PinPath} * plan.Keys
  }

  // int() of an edited parameter; a float is not an exact integer member of its domain.
  function ParamValue(v: Value): Option<int> {
    match v
    case Whole(i) => Some(i)
    case Flag(b) => Some(if b then 1 else 0)
    case _ => None
  }

  function DesiredParam(plan: Plan, raw: Settings, p: Param): Option<int> {
    if p != MultiAcks && ParamPath(p) in plan then ParamValue(plan[ParamPath(p)])
    else if p in raw.self.params then Some(raw.self.params[p]) else None
  }

  predicate DesiredSafe(plan: Plan, raw: Settings) {
    forall p | p in PARAMS :: DesiredParam(plan, raw, p).Some? && InDomain(p, DesiredParam(plan, raw, p).value)
  }

  function DesiredParams(plan: Plan, raw: Settings): map<Param, int>
    requires DesiredSafe(plan, raw)
  {
    map p | p in PARAMS :: DesiredParam(plan, raw, p).value
  }

  function ParseDigits(s: string): nat
    requires forall c | c in s :: IsDigit(c)
  {
    if s == "" then 0
    else
      var last := s[|s| - 1];
      assert IsDigit(last);
      10 * ParseDigits(s[..|s| - 1]) + (last as int - '0' as int)
  }

  function PinValue(v: Value): Option<int> {
    if v.Clear? then Some(0)
    else if v.ReplacePin? && IsPin(v.digits) then Some(ParseDigits(v.digits))
    else None
  }

  function DesiredChannel(plan: Plan, i: nat, existing: Channel): Option<Channel> {
    var name := if ChannelName(i) in plan then plan[ChannelName(i)] else Text(existing.name);
    var secret := if ChannelSecret(i) in plan then plan[ChannelSecret(i)]
                  else if existing.secret.Some? then ReplaceKey(existing.secret.value) else Malformed;
    if existing.secret.Some? && name.Text? && SafeName(name.text) && secret.ReplaceKey?
    then Some(Channel(name.text, Some(secret.key))) else None
  }

  /** The one command of a group, built from the edited values and the freshest read of the others;
      None is the executor's own validation error. */
  function Prepare(g: Group, plan: Plan, raw: Settings): Option<Command> {
    match g
    case NameGroup =>
      if NamePath in plan && plan[NamePath].Text? then Some(SetName(plan[NamePath].text)) else None
    case CoordGroup =>
      var lat := if LatPath in plan then AsNumber(plan[LatPath]) else raw.self.lat;
      var lon := if LonPath in plan then AsNumber(plan[LonPath]) else raw.self.lon;
      if InRange(lat, 90.0) && InRange(lon, 180.0) then Some(SetCoords(lat.value, lon.value)) else None
    case OtherGroup => if DesiredSafe(plan, raw) then Some(SetOther(DesiredParams(plan, raw))) else None
    case TxGroup =>
      if TxPath in plan && plan[TxPath].Whole? && 0 <= plan[TxPath].whole <= IntOr(raw.self.maxTxPower, -1)
      then Some(SetTxPower(plan[TxPath].whole)) else None
    case ChannelGroup(i) =>
      if i !in raw.channels then None
      else
        var wanted := DesiredChannel(plan, i, raw.channels[i]);
        if wanted.Some? then Some(SetChannel(i, wanted.value)) else None
    case PinGroup =>
      if PinPath in plan && PinValue(plan[PinPath]).Some? then Some(SetPin(PinValue(plan[PinPath]).value)) else None
  }

  // ---------------------------------------------------------------- replies and readback

  datatype Readback = SelfRead(self: SelfInfo) | ChannelRead(channel: Channel) | PinRead(pin: Option<int>)

  datatype WriteReply = WriteAcked | WriteTimedOut | WriteRefused | WriteCancelled | WriteLinkLost

  datatype ReadReply = Report(info: Readback) | ReadFailed | ReadCancelled | ReadLinkLost

  datatype Reply = Reply(write: WriteReply, read: ReadReply)

  datatype Exchange = Exchange(group: Group, command: Command, reply: Reply)

  function RealOr0(v: Option<real>): real {
    if v.Some? then v.value else 0.0
  }

  // The readback compares the whole group that the command rewrites.
  predicate Matches(c: Command, info: Readback) {
    match c
    case SetName(n) => info.SelfRead? && info.self.name == n
    case SetCoords(lat, lon) => info.SelfRead? && RealOr0(info.self.lat) == lat && RealOr0(info.self.lon) == lon
    case SetOther(params) =>
      info.SelfRead? && forall p | p in PARAMS ::
        p in info.self.params && InDomain(p, info.self.params[p]) && p in params && info.self.params[p] == params[p]
    case SetTxPower(power) => info.SelfRead? && IntOr(info.self.txPower, -1) == power
    case SetChannel(_, channel) => info.ChannelRead? && info.channel == channel
    case SetPin(pin) => info.PinRead? && IntOr(info.pin, -1) == pin
  }

  // The kind of reply the read that verifies this command can return.
  predicate Answers(c: Command, info: Readback) {
    match c
    case SetChannel(_, _) => info.ChannelRead?
    case SetPin(_) => info.PinRead?
    case _ => info.SelfRead?
  }

  function Refresh(raw: Settings, c: Command, info: Readback): Settings {
    match info
    case SelfRead(self) => raw.(self := self)
    case ChannelRead(channel) => if c.SetChannel? then raw.(channels := raw.channels[c.index := channel]) else raw
    case PinRead(pin) => raw.(pin := pin)
  }

  datatype Failure = ValidationError | Rejected | UnknownState | LinkLost | Cancelled

  datatype Status = Running | Stopped | Failed(failure: Failure)

  datatype Warning = ReadbackUnavailable | ReadbackMismatch | ConfirmedAfterTimeout | PlanStopped

  datatype Progress = Progress(
    raw: Settings, applied: set<Path>, verified: set<Path>, warnings: seq<Warning>, status: Status, log: seq<Exchange>)

  function Begin(raw: Settings): Progress {
    Progress(raw, {}, {}, [], Running, [])
  }

  function WriteThenVerify(p: Progress, plan: Plan, g: Group, c: Command, r: Reply): Progress {
    var paths := PathsOf(g, plan);
    var q := p.(log := p.log + [Exchange(g, c, r)]);
    var uncertain := r.write.WriteTimedOut?;
    if r.write.WriteCancelled? || (!r.write.WriteRefused? && !r.write.WriteLinkLost? && r.read.ReadCancelled?)
    then q.(status := Failed(Cancelled))
    else if r.write.WriteLinkLost? || (!r.write.WriteRefused? && r.read.ReadLinkLost?)
    then q.(status := Failed(LinkLost))
    else if r.write.WriteRefused? then q.(status := Failed(Rejected))
    else if !r.read.Report? || !Answers(c, r.read.info) then
      if uncertain then q.(status := Failed(UnknownState))
      else q.(applied := p.applied + paths, warnings := p.warnings + [ReadbackUnavailable], status := Stopped)
    else
      var q := q.(raw := Refresh(p.raw, c, r.read.info));
      if Matches(c, r.read.info) then
        q.(applied := p.applied + paths, verified := p.verified + paths,
           warnings := if uncertain then p.warnings + [ConfirmedAfterTimeout] else p.warnings)
      else if uncertain then q.(status := Failed(UnknownState))
      else q.(applied := p.applied + paths, warnings := p.warnings + [ReadbackMismatch], status := Stopped)
  }

  function RunGroup(p: Progress, plan: Plan, g: Group, r: Reply): Progress {
    if !p.status.Running? then p
    else
      var c := Prepare(g, plan, p.raw);
      if c.None? then p.(status := Failed(ValidationError)) else WriteThenVerify(p, plan, g, c.value, r)
  }

  // Each group is sent at most once, so a reply for each group covers every behaviour of the radio.
  type Replies = Group -> Reply

  function Execute(p: Progress, plan: Plan, groups: seq<Group>, replies: Replies): Progress
    decreases |groups|
  {
    if groups == [] then p else Execute(RunGroup(p, plan, groups[0], replies(groups[0])), plan, groups[1..], replies)
  }

  // ---------------------------------------------------------------- the order of a plan

  function ChannelIndexes(plan: Plan): set<nat> {
    (set path | path in plan.Keys && path.ChannelName? :: path.index)
    + (set path | path in plan.Keys && path.ChannelSecret? :: path.index)
  }

  lemma {:induction false} LeastExists(s: set<nat>, y: nat)
    requires y in s
    ensures exists m :: m in s && forall x | x in s :: m <= x
    decreases y
  {
    if x :| x in s && x < y {
      LeastExists(s, x);
    }
  }

  function Least(s: set<nat>): (m: nat)
    requires s != {}
    ensures m in s && forall x | x in s :: m <= x
  {
    LeastExists(s, var y :| y in s; y);
    var m :| m in s && forall x | x in s :: m <= x;
    m
  }

  function ChannelGroups(indexes: set<nat>): seq<Group>
    decreases |indexes|
  {
    if indexes == {} then [] else [ChannelGroup(Least(indexes))] + ChannelGroups(indexes - {Least(indexes)})
  }

  function When(present: bool, g: Group): seq<Group> {
    if present then [g] else []
  }

  /** Noncritical groups first, then transmit power, the channels in order, and the PIN last. */
  function Groups(plan: Plan): seq<Group> {
    Singles(plan) + ChannelGroups(ChannelIndexes(plan)) + When(PinPath in plan, PinGroup)
  }

  function Singles(plan: Plan): seq<Group> {
    When(NamePath in plan, NameGroup)
    + When(PathsOf(CoordGroup, plan) != {}, CoordGroup)
    + When(PathsOf(OtherGroup, plan) != {}, OtherGroup)
    + When(TxPath in plan, TxGroup)
  }

  function Position(g: Group): nat {
    match g
    case NameGroup => 0 case CoordGroup => 1 case OtherGroup => 2 case TxGroup => 3
    case ChannelGroup(_) => 4 case PinGroup => 5
  }

  predicate Precedes(a: Group, b: Group) {
    Position(a) < Position(b) || (a.ChannelGroup? && b.ChannelGroup? && a.index < b.index)
  }

  ghost predicate Ordered(gs: seq<Group>) {
    forall i, j | 0 <= i < j < |gs| :: Precedes(gs[i], gs[j])
  }

  ghost predicate OrderedAt(gs: seq<Group>, k: nat) {
    Ordered(gs) && forall i | 0 <= i < |gs| :: Position(gs[i]) == k
  }

  lemma {:induction false} ChannelGroupsMembers(indexes: set<nat>)
    ensures forall g :: g in ChannelGroups(indexes) <==> g.ChannelGroup? && g.index in indexes
    decreases |indexes|
  {
    if indexes != {} {
      ChannelGroupsMembers(indexes - {Least(indexes)});
    }
  }

  lemma {:induction false} ChannelGroupsAscend(indexes: set<nat>)
    ensures OrderedAt(ChannelGroups(indexes), 4)
    decreases |indexes|
  {
    if indexes != {} {
      var least := Least(indexes);
      var rest := ChannelGroups(indexes - {least});
      ChannelGroupsAscend(indexes - {least});
      ChannelGroupsMembers(indexes - {least});
      forall j | 0 <= j < |rest|
        ensures Precedes(ChannelGroup(least), rest[j])
      {
        assert rest[j] in rest && rest[j].index in indexes && rest[j].index != least;
      }
      assert ChannelGroups(indexes) == [ChannelGroup(least)] + rest;
    }
  }

  lemma OrderedChain(n: seq<Group>, c: seq<Group>, o: seq<Group>, t: seq<Group>, channels: seq<Group>, p: seq<Group>)
    requires OrderedAt(n, 0) && OrderedAt(c, 1) && OrderedAt(o, 2)
    requires OrderedAt(t, 3) && OrderedAt(channels, 4) && OrderedAt(p, 5)
    ensures Ordered(n + c + o + t + channels + p)
  {
  }

  lemma GroupsAreOrdered(plan: Plan)
    ensures Ordered(Groups(plan))
  {
    var channels := ChannelGroups(ChannelIndexes(plan));
    ChannelGroupsAscend(ChannelIndexes(plan));
    OrderedChain(When(NamePath in plan, NameGroup), When(PathsOf(CoordGroup, plan) != {}, CoordGroup),
                 When(PathsOf(OtherGroup, plan) != {}, OtherGroup), When(TxPath in plan, TxGroup),
                 channels, When(PinPath in plan, PinGroup));
  }

  lemma ChannelPaths(plan: Plan, i: nat)
    ensures PathsOf(ChannelGroup(i), plan) != {} <==> i in ChannelIndexes(plan)
  {
    assert ChannelName(i) in plan <==> ChannelName(i) in PathsOf(ChannelGroup(i), plan);
    assert ChannelSecret(i) in plan <==> ChannelSecret(i) in PathsOf(ChannelGroup(i), plan);
    if ChannelName(i) in plan {
      assert ChannelName(i).index in ChannelIndexes(plan);
    }
    if ChannelSecret(i) in plan {
      assert ChannelSecret(i).index in ChannelIndexes(plan);
    }
  }

  /** A group is run exactly when it has edited paths. */
  lemma GroupIsEdited(plan: Plan, g: Group)
    ensures g in Groups(plan) <==> PathsOf(g, plan) != {}
  {
    ChannelGroupsMembers(ChannelIndexes(plan));
    match g {
      case NameGroup => assert NamePath in plan <==> NamePath in PathsOf(g, plan);
      case TxGroup => assert TxPath in plan <==> TxPath in PathsOf(g, plan);
      case PinGroup => assert PinPath in plan <==> PinPath in PathsOf(g, plan);
      case ChannelGroup(i) => ChannelPaths(plan, i);
      case _ =>
    }
  }

  lemma GroupsAreEdited(plan: Plan)
    ensures forall g :: g in Groups(plan) <==> PathsOf(g, plan) != {}
  {
    forall g
      ensures g in Groups(plan) <==> PathsOf(g, plan) != {}
    {
      GroupIsEdited(plan, g);
    }
  }

  function Covered(gs: seq<Group>, plan: Plan): set<Path> {
    if gs == [] then {} else PathsOf(gs[0], plan) + Covered(gs[1..], plan)
  }

  lemma {:induction false} CoveredMembers(gs: seq<Group>, plan: Plan, path: Path)
    ensures path in Covered(gs, plan) <==> exists i :: 0 <= i < |gs| && path in PathsOf(gs[i], plan)
  {
    if gs != [] {
      CoveredMembers(gs[1..], plan, path);
      if i :| 0 <= i < |gs| && path in PathsOf(gs[i], plan) && i > 0 {
        assert gs[1..][i - 1] == gs[i];
      }
    }
  }

  function HomeOf(path: Path): Option<Group> {
    match path
    case NamePath => Some(NameGroup)
    case LatPath | LonPath => Some(CoordGroup)
    case ParamPath(p) => if p.MultiAcks? then None else Some(OtherGroup)
    case TxPath => Some(TxGroup)
    case ChannelName(i) => Some(ChannelGroup(i))
    case ChannelSecret(i) => Some(ChannelGroup(i))
    case PinPath => Some(PinGroup)
    case _ => None
  }

  lemma PathsAreHome(g: Group, plan: Plan)
    ensures forall path :: path in PathsOf(g, plan) <==> path in plan && HomeOf(path) == Some(g)
  {
  }

  lemma EveryParam(p: Param)
    ensures p in PARAMS
  {
  }

  lemma PathIsCovered(plan: Plan, path: Path)
    requires path in plan ==> HomeOf(path).Some?
    ensures path in Covered(Groups(plan), plan) <==> path in plan
  {
    var groups := Groups(plan);
    CoveredMembers(groups, plan, path);
    if path in plan {
      var g := HomeOf(path).value;
      PathsAreHome(g, plan);
      GroupIsEdited(plan, g);
      var i :| 0 <= i < |groups| && groups[i] == g;
    }
  }

  lemma WholePlanCovered(plan: Plan)
    requires forall path | path in plan :: HomeOf(path).Some?
    ensures Covered(Groups(plan), plan) == plan.Keys
  {
    forall path
      ensures path in Covered(Groups(plan), plan) <==> path in plan
    {
      PathIsCovered(plan, path);
    }
  }

  // ---------------------------------------------------------------- safety against any radio

  /** The write was answered or timed out, and the read after it matched the whole group. */
  predicate Confirmed(x: Exchange) {
    && (x.reply.write.WriteAcked? || x.reply.write.WriteTimedOut?)
    && x.reply.read.Report? && Answers(x.command, x.reply.read.info) && Matches(x.command, x.reply.read.info)
  }

  function ConfirmedPaths(log: seq<Exchange>, plan: Plan): set<Path> {
    if log == [] then {}
    else
      var last := log[|log| - 1];
      ConfirmedPaths(log[..|log| - 1], plan) + if Confirmed(last) then PathsOf(last.group, plan) else {}
  }

  /** What holds of the traffic and the result, given the groups that were to be run. */
  ghost predicate Safe(p: Progress, plan: Plan, groups: seq<Group>) {
    && |p.log| <= |groups|
    && (forall i | 0 <= i < |p.log| :: p.log[i].group == groups[i])
    && (forall i | 0 <= i < |p.log| - 1 :: Confirmed(p.log[i]))
    && p.verified == ConfirmedPaths(p.log, plan)
    && (p.status.Running? ==> |p.log| == |groups| && (p.log == [] || Confirmed(p.log[|p.log| - 1])))
    && (p.status.Stopped? ==>
          p.log != [] && p.log[|p.log| - 1].reply.write.WriteAcked? && !Confirmed(p.log[|p.log| - 1]))
    && p.applied == p.verified + if p.status.Stopped? then PathsOf(p.log[|p.log| - 1].group, plan) else {}
  }

  lemma OneMoreIsSafe(p: Progress, q: Progress, plan: Plan, done: seq<Group>, x: Exchange)
    requires p.status.Running? && Safe(p, plan, done) && q.log == p.log + [x]
    requires q.verified == p.verified + if Confirmed(x) then PathsOf(x.group, plan) else {}
    requires q.status.Running? <==> Confirmed(x)
    requires q.status.Stopped? ==> x.reply.write.WriteAcked?
    requires q.applied == q.verified + if q.status.Stopped? then PathsOf(x.group, plan) else {}
    ensures Safe(q, plan, done + [x.group])
  {
    assert q.log[..|q.log| - 1] == p.log;
    assert ConfirmedPaths(q.log, plan)
        == ConfirmedPaths(p.log, plan) + if Confirmed(x) then PathsOf(x.group, plan) else {};
  }

  lemma WriteThenVerifyIsSafe(p: Progress, plan: Plan, done: seq<Group>, g: Group, c: Command, r: Reply)
    requires p.status.Running? && Safe(p, plan, done)
    ensures Safe(WriteThenVerify(p, plan, g, c, r), plan, done + [g])
  {
    OneMoreIsSafe(p, WriteThenVerify(p, plan, g, c, r), plan, done, Exchange(g, c, r));
  }

  lemma RunGroupIsSafe(p: Progress, plan: Plan, done: seq<Group>, g: Group, r: Reply)
    requires Safe(p, plan, done)
    ensures Safe(RunGroup(p, plan, g, r), plan, done + [g])
  {
    if p.status.Running? && Prepare(g, plan, p.raw).Some? {
      WriteThenVerifyIsSafe(p, plan, done, g, Prepare(g, plan, p.raw).value, r);
    }
  }

  lemma {:induction false} ExecuteIsSafe(p: Progress, plan: Plan, done: seq<Group>, groups: seq<Group>,
                          replies: Replies)
    requires Safe(p, plan, done)
    ensures Safe(Execute(p, plan, groups, replies), plan, done + groups)
    decreases |groups|
  {
    if groups == [] {
      assert done + groups == done;
    } else {
      RunGroupIsSafe(p, plan, done, groups[0], replies(groups[0]));
      ExecuteIsSafe(RunGroup(p, plan, groups[0], replies(groups[0])), plan, done + [groups[0]], groups[1..], replies);
      assert done + [groups[0]] + groups[1..] == done + groups;
    }
  }

  predicate EditsRadio(plan: Plan) {
    exists path | path in plan.Keys :: path.RadioPath?
  }

  function ApplyPlan(plan: Plan, raw: Settings, replies: Replies): Progress {
    if EditsRadio(plan) then Begin(raw).(status := Failed(ValidationError))
    else Execute(Begin(raw), plan, Groups(plan), replies)
  }

  lemma {:induction false} ConfirmedWithinPlan(log: seq<Exchange>, plan: Plan)
    ensures ConfirmedPaths(log, plan) <= plan.Keys
    ensures forall path | path in ConfirmedPaths(log, plan) ::
              exists i | 0 <= i < |log| :: Confirmed(log[i]) && path in PathsOf(log[i].group, plan)
  {
    if log != [] {
      ConfirmedWithinPlan(log[..|log| - 1], plan);
      PathsAreHome(log[|log| - 1].group, plan);
    }
  }

  lemma ApplyPlanIsSafe(plan: Plan, raw: Settings, replies: Replies)
    ensures Safe(ApplyPlan(plan, raw, replies), plan, Groups(plan))
  {
    if !EditsRadio(plan) {
      ExecuteIsSafe(Begin(raw), plan, [], Groups(plan), replies);
      assert [] + Groups(plan) == Groups(plan);
    }
  }

  lemma SafeMeans(p: Progress, plan: Plan, groups: seq<Group>)
    requires Safe(p, plan, groups)
    ensures p.verified <= p.applied <= plan.Keys
    ensures forall path | path in p.verified ::
              exists i | 0 <= i < |p.log| :: Confirmed(p.log[i]) && path in PathsOf(p.log[i].group, plan)
  {
    ConfirmedWithinPlan(p.log, plan);
    if p.log != [] {
      PathsAreHome(p.log[|p.log| - 1].group, plan);
    }
  }

  /** Plan safety against an arbitrary radio: no command is sent twice, nothing is sent after the
      first write that was not confirmed, a path is verified only through the confirming readback of
      its own group's single write, and verified is within applied within the plan. */
  lemma PlanIsSafe(plan: Plan, raw: Settings, replies: Replies)
    ensures var p := ApplyPlan(plan, raw, replies);
            && (forall i, j | 0 <= i < j < |p.log| ::
                  Precedes(p.log[i].group, p.log[j].group) && p.log[i].group != p.log[j].group)
            && (forall i | 0 <= i < |p.log| - 1 :: Confirmed(p.log[i]))
            && p.verified <= p.applied <= plan.Keys
            && (forall path | path in p.verified ::
                  exists i | 0 <= i < |p.log| :: Confirmed(p.log[i]) && path in PathsOf(p.log[i].group, plan))
            && (forall path | path in p.applied - p.verified :: p.status.Stopped? && p.log != []
                  && path in PathsOf(p.log[|p.log| - 1].group, plan) && p.log[|p.log| - 1].reply.write.WriteAcked?)
  {
    ApplyPlanIsSafe(plan, raw, replies);
    SafeMeans(ApplyPlan(plan, raw, replies), plan, Groups(plan));
    GroupsAreOrdered(plan);
  }

  // The PIN handed to the configuration owner, None inside for a cleared PIN.
  function ConnectionUpdate(plan: Plan, p: Progress, wanted: bool): Option<Option<string>> {
    if p.status.Running? && PinPath in plan && PinPath in p.verified && wanted && PinValue(plan[PinPath]).Some? then
      Some(if PinValue(plan[PinPath]).value == 0 then None
           else if plan[PinPath].ReplacePin? then Some(plan[PinPath].digits) else None)
    else None
  }

  function Digit(s: string, k: nat): int
    requires k < |s|
  {
    s[k] as int - 48
  }

  // Six decimal digits and the six-digit number they are the text of.
  predicate Spells(d: string, n: int) {
    && |d| == 6 && (forall k | 0 <= k < 6 :: 0 <= Digit(d, k) <= 9) && 100000 <= n <= 999999
    && n == 100000 * Digit(d, 0) + 10000 * Digit(d, 1) + 1000 * Digit(d, 2)
            + 100 * Digit(d, 3) + 10 * Digit(d, 4) + Digit(d, 5)
  }

  // What the first k digits spell.
  function Spelt(s: string, k: nat): nat
    requires IsPin(s) && k <= 6
  {
    assert forall c | c in s[..k] :: c in s;
    ParseDigits(s[..k])
  }

  lemma OneMoreDigit(s: string, k: nat)
    requires IsPin(s) && k < 6
    ensures Spelt(s, k + 1) == 10 * Spelt(s, k) + Digit(s, k) && 0 <= Digit(s, k) <= 9
  {
    assert s[..k + 1][..k] == s[..k];
    assert s[k] in s;
  }

  /** A PIN text is the decimal text of its number. */
  lemma PinIsDecimal(s: string)
    requires IsPin(s)
    ensures Spells(s, ParseDigits(s))
  {
    for k := 0 to 6
      invariant k > 0 ==> Spelt(s, 1) == Digit(s, 0)
      invariant forall i | 0 <= i < k :: Spelt(s, i + 1) == 10 * Spelt(s, i) + Digit(s, i) && 0 <= Digit(s, i) <= 9
    {
      OneMoreDigit(s, k);
    }
    assert s[..6] == s;
  }

  ghost predicate PinsAsPlanned(plan: Plan, log: seq<Exchange>) {
    forall i | 0 <= i < |log| && log[i].group.PinGroup? ::
      PinPath in plan && log[i].command.SetPin? && PinValue(plan[PinPath]) == Some(log[i].command.pin)
  }

  lemma {:induction false} ExecutePins(p: Progress, plan: Plan, groups: seq<Group>, replies: Replies)
    requires PinsAsPlanned(plan, p.log)
    ensures PinsAsPlanned(plan, Execute(p, plan, groups, replies).log)
    decreases |groups|
  {
    if groups != [] {
      ExecutePins(RunGroup(p, plan, groups[0], replies(groups[0])), plan, groups[1..], replies);
    }
  }

  // The update that a confirmed PIN exchange justifies: the digits that were sent, or None for a cleared PIN.
  predicate Justifies(x: Exchange, update: Option<string>) {
    && x.command.SetPin? && (x.reply.write.WriteAcked? || x.reply.write.WriteTimedOut?)
    && x.reply.read == Report(PinRead(Some(x.command.pin)))
    && (if update.None? then x.command.pin == 0 else Spells(update.value, x.command.pin))
  }

  lemma ConfirmedPin(v: Value, x: Exchange)
    requires Confirmed(x) && x.command.SetPin? && PinValue(v) == Some(x.command.pin)
    ensures if v.Clear? then Justifies(x, None) else v.ReplacePin? && Justifies(x, Some(v.digits))
  {
    if v.ReplacePin? {
      PinIsDecimal(v.digits);
    }
  }

  lemma HandoffIsOfThePlan(plan: Plan, p: Progress, wanted: bool)
    requires ConnectionUpdate(plan, p, wanted).Some?
    ensures p.status.Running? && wanted && PinPath in plan && PinPath in p.verified
    ensures ConnectionUpdate(plan, p, wanted).value
         == if plan[PinPath].ReplacePin? then Some(plan[PinPath].digits) else None
    ensures plan[PinPath].ReplacePin? || plan[PinPath].Clear?
  {
    if plan[PinPath].ReplacePin? {
      PinIsDecimal(plan[PinPath].digits);
    }
  }

  lemma PlannedPins(plan: Plan, raw: Settings, replies: Replies)
    ensures PinsAsPlanned(plan, ApplyPlan(plan, raw, replies).log)
  {
    if !EditsRadio(plan) {
      ExecutePins(Begin(raw), plan, Groups(plan), replies);
    }
  }

  lemma PinHome(g: Group, plan: Plan)
    ensures PinPath in PathsOf(g, plan) ==> g.PinGroup?
  {
  }

  lemma VerifiedPin(p: Progress, plan: Plan) returns (i: nat)
    requires p.verified == ConfirmedPaths(p.log, plan) && PinPath in p.verified
    ensures i < |p.log| && Confirmed(p.log[i]) && p.log[i].group.PinGroup?
  {
    ConfirmedWithinPlan(p.log, plan);
    i :| 0 <= i < |p.log| && Confirmed(p.log[i]) && PinPath in PathsOf(p.log[i].group, plan);
    PinHome(p.log[i].group, plan);
  }

  /** A PIN is handed over exactly when the completed run verified it and its owner wants it, and then the single
      SetPin command carried it and its own readback confirmed it: the six digits of the plan, sent as the number
      they spell, or None for a cleared PIN, sent as zero. */
  lemma PinHandoffIsVerified(plan: Plan, raw: Settings, replies: Replies, wanted: bool)
    ensures var p := ApplyPlan(plan, raw, replies);
            var update := ConnectionUpdate(plan, p, wanted);
            && (update.Some? <==> p.status.Running? && PinPath in p.verified && wanted)
            && (update.Some? ==>
                  && PinPath in plan
                  && update.value == (if plan[PinPath].ReplacePin? then Some(plan[PinPath].digits) else None)
                  && exists i | 0 <= i < |p.log| :: Justifies(p.log[i], update.value))
  {
    var p := ApplyPlan(plan, raw, replies);
    if PinPath in p.verified {
      PlannedPins(plan, raw, replies);
      ApplyPlanIsSafe(plan, raw, replies);
      var i := VerifiedPin(p, plan);
      ConfirmedPin(plan[PinPath], p.log[i]);
      if ConnectionUpdate(plan, p, wanted).Some? {
        HandoffIsOfThePlan(plan, p, wanted);
        assert Justifies(p.log[i], ConnectionUpdate(plan, p, wanted).value);
      }
    }
  }

  lemma {:induction false} ExecuteConcat(p: Progress, plan: Plan, a: seq<Group>, b: seq<Group>, replies: Replies)
    ensures Execute(p, plan, a + b, replies) == Execute(Execute(p, plan, a, replies), plan, b, replies)
    decreases |a|
  {
    if a == [] {
      assert a + b == b;
    } else {
      assert (a + b)[1..] == a[1..] + b;
      ExecuteConcat(RunGroup(p, plan, a[0], replies(a[0])), plan, a[1..], b, replies);
    }
  }
}
