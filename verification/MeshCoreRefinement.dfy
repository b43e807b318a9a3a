/**
A MeshCore settings plan run against a radio that does what it acknowledges: the grouped commands replace
exactly the fields of the plan.
*/
module MeshCoreRefinement {
  import opened Basics
  import opened MeshCoreSettings

  // ---------------------------------------------------------------- an honest radio

  // What a command does when the radio carries it out.
  function Effect(r: Settings, c: Command): Settings {
    match c
    case SetName(n) => r.(self := r.self.(name := n))
    case SetCoords(lat, lon) => r.(self := r.self.(lat := Some(lat), lon := Some(lon)))
    case SetOther(params) => r.(self := r.self.(params := r.self.params + params))
    case SetTxPower(power) => r.(self := r.self.(txPower := Some(power)))
    case SetChannel(i, channel) => r.(channels := r.channels[i := channel])
    case SetPin(pin) => r.(pin := Some(pin))
  }

  // Whether the radio carried out the single command of a group.
  type Took = Group -> bool

  function RadioAfter(r: Settings, log: seq<Exchange>, took: Took): Settings {
    if log == [] then r
    else
      var x := log[|log| - 1];
      var before := RadioAfter(r, log[..|log| - 1], took);
      if took(x.group) then Effect(before, x.command) else before
  }

  predicate Truthful(r: Settings, c: Command, info: Readback) {
    match c
    case SetChannel(i, _) => i in r.channels && info == ChannelRead(r.channels[i])
    case SetPin(_) => info == PinRead(r.pin)
    case _ => info == SelfRead(r.self)
  }

  /** Acknowledged commands were carried out, and every read reports what the radio holds by then; a
      command that was not acknowledged may or may not have been carried out. */
  ghost predicate Honest(r: Settings, log: seq<Exchange>, took: Took) {
    forall i {:trigger log[i]} | 0 <= i < |log| ::
      && (log[i].reply.write.WriteAcked? ==> took(log[i].group))
      && (log[i].reply.read.Report? ==>
            Truthful(RadioAfter(r, log[..i + 1], took), log[i].command, log[i].reply.read.info))
  }

  // The initial live read: it may omit channels, and is right about the rest.
  ghost predicate Agrees(raw: Settings, r: Settings) {
    && raw.self == r.self && raw.pin == r.pin
    && forall i | i in raw.channels :: i in r.channels && r.channels[i] == raw.channels[i]
  }

  // The edited fields replaced one by one, independently of how commands group them.
  function Override(r: Settings, plan: Plan, edited: set<Path>): Settings {
    var lat := if LatPath in edited && LatPath in plan then AsNumber(plan[LatPath]) else r.self.lat;
    var lon := if LonPath in edited && LonPath in plan then AsNumber(plan[LonPath]) else r.self.lon;
    var name := if NamePath in edited && NamePath in plan && plan[NamePath].Text?
                then plan[NamePath].text else r.self.name;
    var tx := if TxPath in edited && TxPath in plan && plan[TxPath].Whole?
              then Some(plan[TxPath].whole) else r.self.txPower;
    var pin := if PinPath in edited && PinPath in plan then PinValue(plan[PinPath]) else r.pin;
    Settings(SelfInfo(name, lat, lon, OverrideParams(r, plan, edited), tx, r.self.maxTxPower),
             OverrideChannels(r, plan, edited), pin)
  }

  function OverrideParams(r: Settings, plan: Plan, edited: set<Path>): map<Param, int> {
    map p | p in r.self.params :: OverrideParam(r, plan, edited, p)
  }

  function OverrideChannels(r: Settings, plan: Plan, edited: set<Path>): map<nat, Channel> {
    map i | i in r.channels :: OverrideChannel(r.channels[i], plan, edited, i)
  }

  function OverrideParam(r: Settings, plan: Plan, edited: set<Path>, p: Param): int
    requires p in r.self.params
  {
    if p != MultiAcks && ParamPath(p) in edited && ParamPath(p) in plan && ParamValue(plan[ParamPath(p)]).Some?
    then ParamValue(plan[ParamPath(p)]).value else r.self.params[p]
  }

  function OverrideChannel(c: Channel, plan: Plan, edited: set<Path>, i: nat): Channel {
    Channel(if ChannelName(i) in edited && ChannelName(i) in plan && plan[ChannelName(i)].Text?
            then plan[ChannelName(i)].text else c.name,
            if ChannelSecret(i) in edited && ChannelSecret(i) in plan && plan[ChannelSecret(i)].ReplaceKey?
            then Some(plan[ChannelSecret(i)].key) else c.secret)
  }

  // The part of a plan's validity that later groups still rely on.
  ghost predicate Fits(plan: Plan, s: Settings) {
    && (LatPath in plan || LonPath in plan ==> CoordsSafe(s.self))
    && (PathsOf(OtherGroup, plan) != {} ==> GroupSafe(s.self.params))
    && (TxPath in plan ==> plan[TxPath].Whole? && 0 <= plan[TxPath].whole <= IntOr(s.self.maxTxPower, -1))
    && (forall i | i in ChannelIndexes(plan) ::
          i in s.channels && s.channels[i].secret.Some? && SafeName(s.channels[i].name))
  }

  // Every edited value has the right shape for its path.
  ghost predicate Shaped(plan: Plan) {
    forall path | path in plan :: HomeOf(path).Some? &&
      match path
      case NamePath => plan[path].Text?
      case LatPath => InRange(AsNumber(plan[path]), 90.0)
      case LonPath => InRange(AsNumber(plan[path]), 180.0)
      case ParamPath(p) => if IsTelemetry(p) then InSelect(plan[path]) else plan[path].Flag?
      case TxPath => plan[path].Whole?
      case ChannelName(_) => plan[path].Text? && SafeName(plan[path].text)
      case ChannelSecret(_) => plan[path].ReplaceKey?
      case PinPath => PinValue(plan[path]).Some?
      case _ => false
  }

  predicate FloatSelect(plan: Plan) {
    exists path | path in plan.Keys :: path.ParamPath? && plan[path].Number?
  }

  lemma ValidPlanShaped(plan: Plan, sup: Support, s: Settings)
    requires ValidPlan(plan, sup, s)
    ensures Shaped(plan)
  {
  }

  lemma ValidPlanFits(plan: Plan, sup: Support, s: Settings)
    requires ValidPlan(plan, sup, s)
    ensures Fits(plan, s)
  {
    if PathsOf(OtherGroup, plan) != {} {
      var path :| path in PathsOf(OtherGroup, plan);
      assert Writable(path, sup, s);
    }
    forall i | i in ChannelIndexes(plan)
      ensures i in s.channels && Editable(s.channels[i])
    {
      assert ChannelName(i) in plan || ChannelSecret(i) in plan;
    }
  }

  lemma OverrideParamsFit(plan: Plan, r: Settings, edited: set<Path>)
    requires GroupSafe(r.self.params) && Shaped(plan)
    ensures GroupSafe(OverrideParams(r, plan, edited))
  {
  }

  lemma OverrideFits(plan: Plan, r: Settings, edited: set<Path>)
    requires Fits(plan, r) && Shaped(plan)
    ensures Fits(plan, Override(r, plan, edited))
  {
    if PathsOf(OtherGroup, plan) != {} {
      OverrideParamsFit(plan, r, edited);
    }
  }

  // Without a float select every group of a plan that fits can be prepared; with one, the group cannot.
  lemma FitsPrepares(plan: Plan, s: Settings, g: Group)
    requires Fits(plan, s) && Shaped(plan) && PathsOf(g, plan) != {}
    ensures Prepare(g, plan, s).None? <==> g.OtherGroup? && FloatSelect(plan)
  {
    PathsAreHome(g, plan);
    match g {
      case OtherGroup => FloatSelectBlocks(plan, s);
      case ChannelGroup(i) => ChannelPaths(plan, i);
      case _ =>
    }
  }

  lemma FloatSelectBlocks(plan: Plan, s: Settings)
    requires GroupSafe(s.self.params) && Shaped(plan)
    ensures DesiredSafe(plan, s) <==> !FloatSelect(plan)
  {
    if FloatSelect(plan) {
      var path :| path in plan.Keys && path.ParamPath? && plan[path].Number?;
      EveryParam(path.param);
      assert DesiredParam(plan, s, path.param).None?;
    } else {
      forall p | p in PARAMS
        ensures DesiredParam(plan, s, p).Some? && InDomain(p, DesiredParam(plan, s, p).value)
      {
        if ParamPath(p) in plan {
          assert !plan[ParamPath(p)].Number?;
        }
      }
    }
  }

  lemma ParamsUntouched(r: Settings, plan: Plan, edited: set<Path>, paths: set<Path>)
    requires forall path | path in paths :: !path.ParamPath?
    ensures OverrideParams(r, plan, edited + paths) == OverrideParams(r, plan, edited)
  {
  }

  lemma ChannelsUntouched(r: Settings, plan: Plan, edited: set<Path>, paths: set<Path>)
    requires forall path | path in paths :: !path.ChannelName? && !path.ChannelSecret?
    ensures OverrideChannels(r, plan, edited + paths) == OverrideChannels(r, plan, edited)
  {
  }

  lemma DesiredIsOverride(r: Settings, plan: Plan, edited: set<Path>, raw: Settings, p: Param)
    requires p in r.self.params && raw.self.params == OverrideParams(r, plan, edited)
    requires PathsOf(OtherGroup, plan) !! edited
    requires DesiredParam(plan, raw, p).Some?
    ensures DesiredParam(plan, raw, p).value == OverrideParam(r, plan, edited + PathsOf(OtherGroup, plan), p)
  {
  }

  lemma EffectOfOther(r: Settings, plan: Plan, edited: set<Path>, raw: Settings)
    requires GroupSafe(r.self.params) && DesiredSafe(plan, raw)
    requires raw.self.params == OverrideParams(r, plan, edited) && PathsOf(OtherGroup, plan) !! edited
    ensures OverrideParams(r, plan, edited) + DesiredParams(plan, raw)
            == OverrideParams(r, plan, edited + PathsOf(OtherGroup, plan))
  {
    forall p | p in r.self.params
      ensures p in PARAMS
      ensures DesiredParams(plan, raw)[p] == OverrideParam(r, plan, edited + PathsOf(OtherGroup, plan), p)
    {
      EveryParam(p);
      DesiredIsOverride(r, plan, edited, raw, p);
    }
  }

  lemma EffectOfChannel(r: Settings, plan: Plan, edited: set<Path>, raw: Settings, i: nat)
    requires Shaped(plan) && i in raw.channels && i in r.channels
    requires raw.channels[i] == OverrideChannel(r.channels[i], plan, edited, i)
    requires PathsOf(ChannelGroup(i), plan) !! edited
    requires DesiredChannel(plan, i, raw.channels[i]).Some?
    ensures OverrideChannels(r, plan, edited)[i := DesiredChannel(plan, i, raw.channels[i]).value]
            == OverrideChannels(r, plan, edited + PathsOf(ChannelGroup(i), plan))
  {
    var paths := PathsOf(ChannelGroup(i), plan);
    assert ChannelName(i) in plan ==> ChannelName(i) in paths;
    assert ChannelSecret(i) in plan ==> ChannelSecret(i) in paths;
  }

  lemma EffectOfFields(r: Settings, plan: Plan, edited: set<Path>, raw: Settings, g: Group, c: Command)
    requires Shaped(plan) && raw.self == Override(r, plan, edited).self
    requires !g.OtherGroup? && !g.ChannelGroup? && PathsOf(g, plan) != {} && PathsOf(g, plan) !! edited
    requires Prepare(g, plan, raw) == Some(c)
    ensures Effect(Override(r, plan, edited), c) == Override(r, plan, edited + PathsOf(g, plan))
  {
    PathsAreHome(g, plan);
    ParamsUntouched(r, plan, edited, PathsOf(g, plan));
    ChannelsUntouched(r, plan, edited, PathsOf(g, plan));
  }

  lemma FieldsUntouched(r: Settings, plan: Plan, edited: set<Path>)
    ensures var a, b := Override(r, plan, edited), Override(r, plan, edited + PathsOf(OtherGroup, plan));
            a.self.(params := map[]) == b.self.(params := map[]) && a.pin == b.pin
  {
  }

  lemma OtherIsOverride(r: Settings, plan: Plan, edited: set<Path>, raw: Settings, c: Command)
    requires Fits(plan, r) && raw.self == Override(r, plan, edited).self
    requires PathsOf(OtherGroup, plan) != {} && PathsOf(OtherGroup, plan) !! edited
    requires Prepare(OtherGroup, plan, raw) == Some(c)
    ensures Effect(Override(r, plan, edited), c) == Override(r, plan, edited + PathsOf(OtherGroup, plan))
  {
    EffectOfOther(r, plan, edited, raw);
    FieldsUntouched(r, plan, edited);
    ChannelsUntouched(r, plan, edited, PathsOf(OtherGroup, plan));
    assert c == SetOther(DesiredParams(plan, raw));
  }

  lemma ChannelIsOverride(r: Settings, plan: Plan, edited: set<Path>, raw: Settings, i: nat, c: Command)
    requires Shaped(plan) && i in r.channels
    requires i in raw.channels ==> raw.channels[i] == OverrideChannel(r.channels[i], plan, edited, i)
    requires PathsOf(ChannelGroup(i), plan) !! edited
    requires Prepare(ChannelGroup(i), plan, raw) == Some(c)
    ensures Effect(Override(r, plan, edited), c) == Override(r, plan, edited + PathsOf(ChannelGroup(i), plan))
  {
    EffectOfChannel(r, plan, edited, raw, i);
    ParamsUntouched(r, plan, edited, PathsOf(ChannelGroup(i), plan));
  }

  /** Carrying out one grouped command is the same as replacing its edited fields one by one. */
  lemma EffectIsOverride(r: Settings, plan: Plan, edited: set<Path>, raw: Settings, g: Group, c: Command)
    requires Shaped(plan) && Fits(plan, r)
    requires Agrees(raw, Override(r, plan, edited))
    requires PathsOf(g, plan) != {} && PathsOf(g, plan) !! edited
    requires Prepare(g, plan, raw) == Some(c)
    ensures Effect(Override(r, plan, edited), c) == Override(r, plan, edited + PathsOf(g, plan))
  {
    if g.OtherGroup? {
      OtherIsOverride(r, plan, edited, raw, c);
    } else if g.ChannelGroup? {
      assert g.index in raw.channels && g.index in Override(r, plan, edited).channels;
      ChannelIsOverride(r, plan, edited, raw, g.index, c);
    } else {
      EffectOfFields(r, plan, edited, raw, g, c);
    }
  }

  // A readback that matches what the radio really holds leaves nothing for the command to change.
  lemma MatchedMeansDone(r: Settings, plan: Plan, raw: Settings, g: Group, c: Command, info: Readback)
    requires Fits(plan, r) && Shaped(plan) && PathsOf(g, plan) != {} && Prepare(g, plan, raw) == Some(c)
    requires Truthful(r, c, info) && Matches(c, info)
    ensures Effect(r, c) == r
  {
    if g.OtherGroup? {
      forall p | p in c.params
        ensures p in r.self.params && r.self.params[p] == c.params[p]
      {
        EveryParam(p);
      }
      assert r.self.params + c.params == r.self.params;
    }
  }

  lemma RefreshAgrees(raw: Settings, before: Settings, after: Settings, c: Command, info: Readback)
    requires Agrees(raw, before) && (after == before || after == Effect(before, c))
    requires Truthful(after, c, info)
    ensures Agrees(Refresh(raw, c, info), after)
  {
  }

  lemma AgreeingFits(plan: Plan, raw: Settings, r: Settings)
    requires Agrees(raw, r) && Fits(plan, r) && ChannelIndexes(plan) <= raw.channels.Keys
    ensures Fits(plan, raw)
  {
  }

  // What fits the projected settings fits the radio they were read from.
  lemma FitsUpwards(plan: Plan, raw: Settings, r: Settings)
    requires Agrees(raw, r) && Fits(plan, raw)
    ensures Fits(plan, r) && ChannelIndexes(plan) <= raw.channels.Keys
  {
  }

  lemma TruthAnswers(r: Settings, c: Command, info: Readback)
    requires Truthful(r, c, info)
    ensures Answers(c, info)
  {
  }

  /** Where an honest radio stands: with the verified fields replaced and, once the run has stopped,
      possibly those of the last group too. */
  ghost predicate Tracks(r: Settings, plan: Plan, p: Progress, took: Took) {
    var now := RadioAfter(r, p.log, took);
    if p.status.Running? then
      now == Override(r, plan, p.verified) && Agrees(p.raw, now) && ChannelIndexes(plan) <= p.raw.channels.Keys
    else
      now == Override(r, plan, p.verified)
      || (p.log != [] && now == Override(r, plan, p.verified + PathsOf(p.log[|p.log| - 1].group, plan)))
  }

  // One command's exchange x took progress p to q.
  ghost predicate Exchanged(p: Progress, q: Progress, plan: Plan, x: Exchange) {
    && q.log == p.log + [x]
    && (q.status.Running? <==> Confirmed(x))
    && (q.status.Running? ==> q.raw == Refresh(p.raw, x.command, x.reply.read.info)
                              && q.verified == p.verified + PathsOf(x.group, plan))
    && (!q.status.Running? ==> q.verified == p.verified)
  }

  lemma WriteThenVerifyExchanges(p: Progress, plan: Plan, g: Group, c: Command, r: Reply)
    requires p.status.Running?
    ensures Exchanged(p, WriteThenVerify(p, plan, g, c, r), plan, Exchange(g, c, r))
  {
  }

  lemma RadioAfterExchange(r: Settings, log: seq<Exchange>, x: Exchange, took: Took)
    ensures RadioAfter(r, log + [x], took)
            == if took(x.group) then Effect(RadioAfter(r, log, took), x.command) else RadioAfter(r, log, took)
  {
  }

  lemma HonestLast(r: Settings, log: seq<Exchange>, x: Exchange, took: Took)
    requires Honest(r, log + [x], took)
    ensures x.reply.read.Report? ==> Truthful(RadioAfter(r, log + [x], took), x.command, x.reply.read.info)
    ensures x.reply.write.WriteAcked? ==> took(x.group)
  {
    assert (log + [x])[|log|] == x && (log + [x])[..|log| + 1] == log + [x];
  }

  lemma ConfirmedTracks(r: Settings, plan: Plan, p: Progress, q: Progress, x: Exchange, took: Took)
    requires Shaped(plan) && Fits(plan, r) && p.status.Running? && Tracks(r, plan, p, took)
    requires PathsOf(x.group, plan) != {} && PathsOf(x.group, plan) !! p.verified
    requires Prepare(x.group, plan, p.raw) == Some(x.command)
    requires Exchanged(p, q, plan, x) && Honest(r, q.log, took) && Confirmed(x)
    ensures Tracks(r, plan, q, took)
  {
    var before, after := RadioAfter(r, p.log, took), RadioAfter(r, q.log, took);
    RadioAfterExchange(r, p.log, x, took);
    HonestLast(r, p.log, x, took);
    EffectIsOverride(r, plan, p.verified, p.raw, x.group, x.command);
    OverrideFits(plan, r, p.verified);
    if !took(x.group) {
      MatchedMeansDone(before, plan, p.raw, x.group, x.command, x.reply.read.info);
    }
    RefreshAgrees(p.raw, before, after, x.command, x.reply.read.info);
  }

  lemma UnconfirmedTracks(r: Settings, plan: Plan, p: Progress, q: Progress, x: Exchange, took: Took)
    requires Shaped(plan) && Fits(plan, r) && p.status.Running? && Tracks(r, plan, p, took)
    requires PathsOf(x.group, plan) != {} && PathsOf(x.group, plan) !! p.verified
    requires Prepare(x.group, plan, p.raw) == Some(x.command)
    requires Exchanged(p, q, plan, x) && !Confirmed(x)
    ensures Tracks(r, plan, q, took)
  {
    RadioAfterExchange(r, p.log, x, took);
    EffectIsOverride(r, plan, p.verified, p.raw, x.group, x.command);
  }

  lemma RunGroupTracks(r: Settings, plan: Plan, p: Progress, g: Group, reply: Reply, took: Took)
    requires Shaped(plan) && Fits(plan, r) && p.status.Running? && Tracks(r, plan, p, took)
    requires PathsOf(g, plan) != {} && PathsOf(g, plan) !! p.verified
    requires Honest(r, RunGroup(p, plan, g, reply).log, took)
    ensures Tracks(r, plan, RunGroup(p, plan, g, reply), took)
    ensures RunGroup(p, plan, g, reply).status.Running? ==>
              RunGroup(p, plan, g, reply).verified == p.verified + PathsOf(g, plan)
  {
    if Prepare(g, plan, p.raw).Some? {
      var x := Exchange(g, Prepare(g, plan, p.raw).value, reply);
      WriteThenVerifyExchanges(p, plan, g, x.command, reply);
      if Confirmed(x) {
        ConfirmedTracks(r, plan, p, RunGroup(p, plan, g, reply), x, took);
      } else {
        UnconfirmedTracks(r, plan, p, RunGroup(p, plan, g, reply), x, took);
      }
    }
  }

  lemma {:induction false} ExecuteExtends(p: Progress, plan: Plan, groups: seq<Group>, replies: Replies)
    ensures p.log <= Execute(p, plan, groups, replies).log
    ensures !p.status.Running? ==> Execute(p, plan, groups, replies) == p
    decreases |groups|
  {
    if groups != [] {
      ExecuteExtends(RunGroup(p, plan, groups[0], replies(groups[0])), plan, groups[1..], replies);
    }
  }

  lemma HonestPrefix(r: Settings, log: seq<Exchange>, longer: seq<Exchange>, took: Took)
    requires log <= longer && Honest(r, longer, took)
    ensures Honest(r, log, took)
  {
    forall i | 0 <= i < |log|
      ensures log[i] == longer[i] && log[..i + 1] == longer[..i + 1]
    {
    }
  }

  // The paths belong to none of the groups still to be run.
  ghost predicate Elsewhere(paths: set<Path>, groups: seq<Group>) {
    forall path, i | path in paths && 0 <= i < |groups| :: HomeOf(path) != Some(groups[i])
  }

  lemma ElsewhereStep(paths: set<Path>, plan: Plan, groups: seq<Group>)
    requires groups != [] && Ordered(groups) && Elsewhere(paths, groups)
    ensures PathsOf(groups[0], plan) !! paths
    ensures Elsewhere(paths, groups[1..])
    ensures Elsewhere(paths + PathsOf(groups[0], plan), groups[1..])
  {
  }

  lemma {:induction false} ExecuteTracks(
    r: Settings, plan: Plan, p: Progress, groups: seq<Group>, replies: Replies, took: Took)
    requires Shaped(plan) && Fits(plan, r) && Tracks(r, plan, p, took)
    requires Ordered(groups) && Elsewhere(p.verified, groups)
    requires forall i | 0 <= i < |groups| :: PathsOf(groups[i], plan) != {}
    requires Honest(r, Execute(p, plan, groups, replies).log, took)
    ensures Tracks(r, plan, Execute(p, plan, groups, replies), took)
    ensures Execute(p, plan, groups, replies).status.Running? ==>
              Execute(p, plan, groups, replies).verified == p.verified + Covered(groups, plan)
    decreases |groups|
  {
    if groups == [] {
    } else if !p.status.Running? {
      ExecuteExtends(p, plan, groups, replies);
    } else {
      var g := groups[0];
      var q := RunGroup(p, plan, g, replies(g));
      ExecuteExtends(q, plan, groups[1..], replies);
      HonestPrefix(r, q.log, Execute(p, plan, groups, replies).log, took);
      ElsewhereStep(p.verified, plan, groups);
      RunGroupTracks(r, plan, p, g, replies(g), took);
      if q.status.Running? {
        ExecuteTracks(r, plan, q, groups[1..], replies, took);
      }
    }
  }

  lemma ValidGroups(plan: Plan)
    requires Shaped(plan)
    ensures Ordered(Groups(plan))
    ensures forall i | 0 <= i < |Groups(plan)| :: PathsOf(Groups(plan)[i], plan) != {}
    ensures Covered(Groups(plan), plan) == plan.Keys
  {
    GroupsAreOrdered(plan);
    GroupsAreEdited(plan);
    WholePlanCovered(plan);
    forall i | 0 <= i < |Groups(plan)|
      ensures PathsOf(Groups(plan)[i], plan) != {}
    {
      assert Groups(plan)[i] in Groups(plan);
    }
  }

  lemma ShapedNeedsNoRadio(plan: Plan)
    requires Shaped(plan)
    ensures !EditsRadio(plan)
  {
  }

  lemma ValidRunTracks(plan: Plan, raw: Settings, r: Settings, replies: Replies, took: Took)
    requires Shaped(plan) && Fits(plan, raw) && Agrees(raw, r)
    requires Honest(r, ApplyPlan(plan, raw, replies).log, took)
    ensures Tracks(r, plan, ApplyPlan(plan, raw, replies), took)
    ensures ApplyPlan(plan, raw, replies).status.Running? ==> ApplyPlan(plan, raw, replies).verified == plan.Keys
  {
    ShapedNeedsNoRadio(plan);
    ValidGroups(plan);
    InitiallyTracks(r, plan, raw, took);
    ExecuteTracks(r, plan, Begin(raw), Groups(plan), replies, took);
  }

  /** Plan refinement.  Against an honest radio a validated plan that runs to its end leaves the radio
      as it was with exactly the plan's fields replaced, all of them verified; a run that ends early
      leaves it with the verified fields replaced and at most those of the last group sent. */
  lemma PlanRefines(plan: Plan, sup: Support, raw: Settings, r: Settings, replies: Replies, took: Took)
    requires ValidPlan(plan, sup, raw) && Agrees(raw, r)
    requires Honest(r, ApplyPlan(plan, raw, replies).log, took)
    ensures var p := ApplyPlan(plan, raw, replies);
            var end := RadioAfter(r, p.log, took);
            && (p.status.Running? ==> p.verified == plan.Keys && end == Override(r, plan, plan.Keys))
            && (end == Override(r, plan, p.verified)
                || (p.log != [] && end == Override(r, plan, p.verified + PathsOf(p.log[|p.log| - 1].group, plan))))
  {
    ValidPlanShaped(plan, sup, raw);
    ValidPlanFits(plan, sup, raw);
    ValidRunTracks(plan, raw, r, replies, took);
  }

  lemma NothingOverridden(r: Settings, plan: Plan)
    ensures Override(r, plan, {}) == r
  {
  }

  lemma InitiallyTracks(r: Settings, plan: Plan, raw: Settings, took: Took)
    requires Agrees(raw, r) && Fits(plan, raw)
    ensures Tracks(r, plan, Begin(raw), took) && Fits(plan, r)
  {
    NothingOverridden(r, plan);
    FitsUpwards(plan, raw, r);
    assert RadioAfter(r, [], took) == r;
  }
}
