/**
The rules of a MeshCore settings plan said once more in its own terms: which entries validation accepts, and what
an honest radio holds after the plan.
*/
module MeshCoreRules {
  import opened Basics
  import opened MeshCoreSettings
  import opened MeshCoreRefinement

  // ---------------------------------------------------------------- text on the air

  // How many code points n bytes of UTF-8 can tell apart: 7, 11, 16 and 21 bits.
  function Capacity(bytes: nat): int {
    if bytes == 0 then 0 else if bytes == 1 then 128 else if bytes == 2 then 2048 else if bytes == 3 then 65536
    else 2097152
  }

  /** The width of a character is the least number of bytes that can hold its code point. */
  lemma WidthIsLeast(c: char)
    ensures 1 <= Utf8Width(c) <= 4 && Capacity(Utf8Width(c) - 1) <= c as int < Capacity(Utf8Width(c))
  {
  }

  lemma {:induction false} LengthIsSum(a: string, b: string)
    ensures Utf8Length(a + b) == Utf8Length(a) + Utf8Length(b)
  {
    if a == [] {
      assert a + b == b;
    } else {
      assert (a + b)[1..] == a[1..] + b && (a + b)[0] == a[0];
      LengthIsSum(a[1..], b);
    }
  }

  lemma {:induction false} LengthIsAtLeast(s: string)
    ensures Utf8Length(s) >= |s|
  {
    if s != "" {
      LengthIsAtLeast(s[1..]);
    }
  }

  // One to 32 bytes.
  predicate FitsName(v: Value) {
    v.Text? && 1 <= Utf8Length(v.text) <= 32
  }

  lemma FitsNameMeans(v: Value)
    ensures v.Text? ==> (FitsName(v) <==> |v.text| <= 32 && v.text != "" && Utf8Length(v.text) <= 32)
  {
    if v.Text? {
      LengthIsAtLeast(v.text);
    }
  }

  // ---------------------------------------------------------------- what validation accepts

  function Highest(p: Param): int {
    match p
    case TelemetryBase => 2
    case TelemetryLocation => 2
    case TelemetryEnvironment => 2
    case AdvertisePosition => 1
    case ManualAdd => 1
    case MultiAcks => 1
  }

  // The radio reports every one of the six parameters, within its domain: a grouped rewrite is safe.
  predicate ParamsReported(s: Settings) {
    && (forall p: Param :: p in s.self.params && 0 <= s.self.params[p] <= Highest(p))
  }

  predicate PositionReported(s: Settings) {
    && s.self.lat.Some? && -90.0 <= s.self.lat.value <= 90.0
    && s.self.lon.Some? && -180.0 <= s.self.lon.value <= 180.0
  }

  // A configured channel whose name can be kept: one to 32 bytes, not a public channel, with a key that is not zero.
  predicate ChannelReported(s: Settings, i: nat) {
    && i in s.channels
    && (var c := s.channels[i];
        && FitsName(Text(c.name)) && c.name[0] != '#'
        && c.secret.Some? && |c.secret.value| == 16 && exists b | b in c.secret.value :: b != 0)
  }

  // A value that equals 0, 1 or 2 in the way the select test compares.
  predicate IsChoice(v: Value) {
    v.Flag? || (v.Whole? && 0 <= v.whole <= 2) || (v.Number? && (v.number == 0.0 || v.number == 1.0 || v.number == 2.0))
  }

  predicate IsCoordinate(v: Value, limit: real) {
    || (v.Whole? && -limit <= v.whole as real <= limit)
    || (v.Number? && -limit <= v.number <= limit)
  }

  predicate IsSixDigits(v: Value) {
    v.ReplacePin? && |v.digits| == 6 && v.digits[0] != '0' && forall k | 0 <= k < 6 :: 0 <= Digit(v.digits, k) <= 9
  }

  // One entry of an acceptable plan.
  predicate Acceptable(path: Path, v: Value, sup: Support, s: Settings) {
    match path
    case NamePath => sup.name && FitsName(v)
    case LatPath => sup.coords && PositionReported(s) && IsCoordinate(v, 90.0)
    case LonPath => sup.coords && PositionReported(s) && IsCoordinate(v, 180.0)
    case ParamPath(p) =>
      && !p.MultiAcks? && sup.other && sup.protocol >= 7 && ParamsReported(s)
      && (if Highest(p) == 2 then IsChoice(v) else v.Flag?)
    case TxPath => sup.txPower && v.Whole? && s.self.maxTxPower.Some? && 0 <= v.whole <= s.self.maxTxPower.value
    case ChannelName(i) =>
      sup.protocol >= 3 && sup.channel && ChannelReported(s, i) && FitsName(v) && v.text[0] != '#'
    case ChannelSecret(i) =>
      sup.protocol >= 3 && sup.channel && ChannelReported(s, i) && v.ReplaceKey? && |v.key| == 16
    case PinPath => sup.protocol >= 3 && sup.pin && (v.Clear? || IsSixDigits(v))
    case RadioPath(_) => false
    case ReadOnlyPath(_) => false
  }

  lemma ReportedMeans(s: Settings, i: nat)
    ensures ParamsReported(s) <==> GroupSafe(s.self.params)
    ensures PositionReported(s) <==> CoordsSafe(s.self)
    ensures ChannelReported(s, i) <==> i in s.channels && Editable(s.channels[i])
  {
    if i in s.channels {
      LengthIsAtLeast(s.channels[i].name);
    }
    if GroupSafe(s.self.params) {
      forall p: Param
        ensures p in s.self.params && 0 <= s.self.params[p] <= Highest(p)
      {
        EveryParam(p);
      }
    }
  }

  lemma SixDigitsMean(v: Value)
    ensures IsSixDigits(v) <==> v.ReplacePin? && IsPin(v.digits)
  {
    if v.ReplacePin? && |v.digits| == 6 {
      if IsPin(v.digits) {
        assert forall k | 0 <= k < 6 :: v.digits[k] in v.digits;
      }
      if IsSixDigits(v) {
        forall c | c in v.digits
          ensures IsDigit(c)
        {
          var k :| 0 <= k < 6 && v.digits[k] == c;
          assert 0 <= Digit(v.digits, k) <= 9;
        }
      }
    }
  }

  lemma AcceptableExactly(path: Path, v: Value, sup: Support, s: Settings)
    ensures Writable(path, sup, s) && Accepts(path, v, s) <==> Acceptable(path, v, sup, s)
  {
    ReportedMeans(s, if path.ChannelName? || path.ChannelSecret? then path.index else 0);
    FitsNameMeans(v);
    SixDigitsMean(v);
  }

  /** Validation accepts exactly the plans of 1 to 64 acceptable entries. */
  lemma ValidExactly(plan: Plan, sup: Support, s: Settings)
    ensures ValidPlan(plan, sup, s) <==>
              1 <= |plan| <= 64 && forall path | path in plan :: Acceptable(path, plan[path], sup, s)
  {
    forall path | path in plan
      ensures Writable(path, sup, s) && Accepts(path, plan[path], s) <==> Acceptable(path, plan[path], sup, s)
    {
      AcceptableExactly(path, plan[path], sup, s);
    }
  }

  // ---------------------------------------------------------------- what the radio holds

  // The entries of a plan with these paths.
  function Only(plan: Plan, paths: set<Path>): Plan {
    map path | path in plan && path in paths :: plan[path]
  }

  // The coordinate after the plan: its own number, or the old one.
  function Coordinate(plan: Plan, path: Path, was: Option<real>): Option<real> {
    if path !in plan then was
    else
      match plan[path]
      case Whole(i) => Some(i as real)
      case Number(x) => Some(x)
      case _ => None
  }

  // The parameter after the plan: a truth value as one or zero, a choice as it is, or the old one.
  function Parameter(plan: Plan, p: Param, was: int): int {
    if p.MultiAcks? || ParamPath(p) !in plan then was
    else
      match plan[ParamPath(p)]
      case Flag(true) => 1
      case Flag(false) => 0
      case Whole(i) => i
      case _ => was
  }

  /** Every edited field holds the plan's value, and everything else is as before. */
  ghost predicate Carried(r: Settings, plan: Plan, after: Settings) {
    && after.self.name == (if NamePath in plan && plan[NamePath].Text? then plan[NamePath].text else r.self.name)
    && after.self.lat == Coordinate(plan, LatPath, r.self.lat)
    && after.self.lon == Coordinate(plan, LonPath, r.self.lon)
    && after.self.maxTxPower == r.self.maxTxPower
    && after.self.txPower == (if TxPath in plan && plan[TxPath].Whole? then Some(plan[TxPath].whole)
                              else r.self.txPower)
    && after.self.params.Keys == r.self.params.Keys
    && (forall p | p in r.self.params :: after.self.params[p] == Parameter(plan, p, r.self.params[p]))
    && after.channels.Keys == r.channels.Keys
    && (forall i | i in r.channels ::
          && after.channels[i].name == (if ChannelName(i) in plan && plan[ChannelName(i)].Text?
                                        then plan[ChannelName(i)].text else r.channels[i].name)
          && after.channels[i].secret == (if ChannelSecret(i) in plan && plan[ChannelSecret(i)].ReplaceKey?
                                          then Some(plan[ChannelSecret(i)].key) else r.channels[i].secret))
    && (if PinPath !in plan then after.pin == r.pin
        else if plan[PinPath].Clear? then after.pin == Some(0)
        else IsSixDigits(plan[PinPath]) ==> after.pin.Some? && Spells(plan[PinPath].digits, after.pin.value))
  }

  lemma OverrideCarries(r: Settings, plan: Plan, edited: set<Path>)
    ensures Carried(r, Only(plan, edited), Override(r, plan, edited))
  {
    if PinPath in plan && IsSixDigits(plan[PinPath]) {
      SixDigitsMean(plan[PinPath]);
      PinIsDecimal(plan[PinPath].digits);
    }
  }

  /** Against an honest radio: a completed plan leaves it with every value of the plan and nothing else changed; one
      that ended early with the verified values, and at most those of the last group that was sent. */
  lemma PlanIsCarriedOut(plan: Plan, sup: Support, raw: Settings, r: Settings, replies: Replies, took: Took)
    requires ValidPlan(plan, sup, raw) && Agrees(raw, r)
    requires Honest(r, ApplyPlan(plan, raw, replies).log, took)
    ensures var p := ApplyPlan(plan, raw, replies);
            var end := RadioAfter(r, p.log, took);
            && (p.status.Running? ==> p.verified == plan.Keys && Carried(r, plan, end))
            && (Carried(r, Only(plan, p.verified), end)
                || (p.log != []
                    && Carried(r, Only(plan, p.verified + PathsOf(p.log[|p.log| - 1].group, plan)), end)))
  {
    var p := ApplyPlan(plan, raw, replies);
    PlanRefines(plan, sup, raw, r, replies, took);
    OverrideCarries(r, plan, plan.Keys);
    assert Only(plan, plan.Keys) == plan;
    OverrideCarries(r, plan, p.verified);
    if p.log != [] {
      OverrideCarries(r, plan, p.verified + PathsOf(p.log[|p.log| - 1].group, plan));
    }
  }

  // ---------------------------------------------------------------- what is sent

  // The plan's value of a parameter, or the one read last; none for a float or a parameter the radio does not report.
  function Wanted(plan: Plan, raw: Settings, p: Param): Option<int> {
    if p.MultiAcks? || ParamPath(p) !in plan then
      if p in raw.self.params then Some(raw.self.params[p]) else None
    else
      match plan[ParamPath(p)]
      case Flag(true) => Some(1)
      case Flag(false) => Some(0)
      case Whole(i) => Some(i)
      case _ => None
  }

  function WantedName(plan: Plan, raw: Settings, i: nat): Value
    requires i in raw.channels
  {
    if ChannelName(i) in plan then plan[ChannelName(i)] else Text(raw.channels[i].name)
  }

  function WantedKey(plan: Plan, raw: Settings, i: nat): Option<Bytes>
    requires i in raw.channels
  {
    if ChannelSecret(i) !in plan then raw.channels[i].secret
    else if plan[ChannelSecret(i)].ReplaceKey? then Some(plan[ChannelSecret(i)].key) else None
  }

  // The whole group that a command is about to rewrite is safe to send.
  ghost predicate Sendable(g: Group, plan: Plan, raw: Settings) {
    match g
    case NameGroup => NamePath in plan && plan[NamePath].Text?
    case CoordGroup =>
      var lat, lon := Coordinate(plan, LatPath, raw.self.lat), Coordinate(plan, LonPath, raw.self.lon);
      lat.Some? && lon.Some? && -90.0 <= lat.value <= 90.0 && -180.0 <= lon.value <= 180.0
    case OtherGroup =>
      forall p: Param :: Wanted(plan, raw, p).Some? && 0 <= Wanted(plan, raw, p).value <= Highest(p)
    case TxGroup =>
      TxPath in plan && plan[TxPath].Whole? && raw.self.maxTxPower.Some?
      && 0 <= plan[TxPath].whole <= raw.self.maxTxPower.value
    case ChannelGroup(i) =>
      i in raw.channels && raw.channels[i].secret.Some? && WantedKey(plan, raw, i).Some?
      && FitsName(WantedName(plan, raw, i)) && WantedName(plan, raw, i).text[0] != '#'
    case PinGroup => PinPath in plan && (plan[PinPath].Clear? || IsSixDigits(plan[PinPath]))
  }

  // The one command of a group: the plan's values, and for the rest of the group what was read last.
  ghost predicate Sends(g: Group, plan: Plan, raw: Settings, c: Command)
    requires Sendable(g, plan, raw)
  {
    match g
    case NameGroup => c == SetName(plan[NamePath].text)
    case CoordGroup => c == SetCoords(Coordinate(plan, LatPath, raw.self.lat).value,
                                      Coordinate(plan, LonPath, raw.self.lon).value)
    case OtherGroup => c.SetOther? && forall p: Param :: p in c.params && Some(c.params[p]) == Wanted(plan, raw, p)
    case TxGroup => c == SetTxPower(plan[TxPath].whole)
    case ChannelGroup(i) => c == SetChannel(i, Channel(WantedName(plan, raw, i).text, WantedKey(plan, raw, i)))
    case PinGroup =>
      c.SetPin? && if plan[PinPath].Clear? then c.pin == 0 else Spells(plan[PinPath].digits, c.pin)
  }

  /** The executor sends a group's command exactly when the whole group is safe to rewrite, and which one. */
  lemma PrepareExactly(g: Group, plan: Plan, raw: Settings)
    ensures Prepare(g, plan, raw).Some? <==> Sendable(g, plan, raw)
    ensures Sendable(g, plan, raw) ==> Sends(g, plan, raw, Prepare(g, plan, raw).value)
  {
    match g {
      case OtherGroup => OtherExactly(plan, raw);
      case ChannelGroup(i) =>
        if i in raw.channels && WantedName(plan, raw, i).Text? {
          LengthIsAtLeast(WantedName(plan, raw, i).text);
        }
      case PinGroup =>
        if PinPath in plan {
          SixDigitsMean(plan[PinPath]);
          if IsSixDigits(plan[PinPath]) {
            PinIsDecimal(plan[PinPath].digits);
          }
        }
      case _ =>
    }
  }

  lemma OtherExactly(plan: Plan, raw: Settings)
    ensures DesiredSafe(plan, raw) <==> Sendable(OtherGroup, plan, raw)
    ensures DesiredSafe(plan, raw) ==>
              forall p: Param ::
                p in DesiredParams(plan, raw) && Some(DesiredParams(plan, raw)[p]) == Wanted(plan, raw, p)
  {
    forall p: Param
      ensures p in PARAMS && DesiredParam(plan, raw, p) == Wanted(plan, raw, p)
      ensures forall v :: InDomain(p, v) <==> 0 <= v <= Highest(p)
    {
      EveryParam(p);
    }
  }

  // ---------------------------------------------------------------- what one write leads to

  // The write was answered or timed out, so what the radio holds is read back.
  predicate ReadsBack(w: WriteReply) {
    w.WriteAcked? || w.WriteTimedOut?
  }

  /** Every outcome of one write: without a readback the run fails and nothing is reported; a readback that matches goes
      on, verified; after a timeout anything else leaves the state unknown; and after an acknowledged write the group
      is reported as applied and the run stops, with a warning that says whether the readback failed or differed. */
  lemma WriteExactly(p: Progress, plan: Plan, g: Group, c: Command, r: Reply)
    requires p.status.Running?
    ensures var q := WriteThenVerify(p, plan, g, c, r); var paths := PathsOf(g, plan);
            var read := r.read.Report? && Answers(c, r.read.info);
            && q.log == p.log + [Exchange(g, c, r)]
            && (if !ReadsBack(r.write) then
                  q == p.(log := q.log, status := Failed(match r.write case WriteCancelled => Cancelled
                                                         case WriteLinkLost => LinkLost case _ => Rejected))
                else if r.read.ReadCancelled? || r.read.ReadLinkLost? then
                  q == p.(log := q.log, status := Failed(if r.read.ReadCancelled? then Cancelled else LinkLost))
                else if read && Matches(c, r.read.info) then
                  && q.status.Running? && q.applied == p.applied + paths && q.verified == p.verified + paths
                  && q.warnings == p.warnings + (if r.write.WriteTimedOut? then [ConfirmedAfterTimeout] else [])
                else if r.write.WriteTimedOut? then
                  && q.status == Failed(UnknownState) && q.applied == p.applied && q.verified == p.verified
                  && q.warnings == p.warnings
                else
                  && q.status.Stopped? && q.applied == p.applied + paths && q.verified == p.verified
                  && q.warnings == p.warnings + [if read then ReadbackMismatch else ReadbackUnavailable])
  {
  }
}
