/**
When a MeshCore settings plan that passed validation fails the executor's own checks.
*/
module MeshCoreFloats {
  import opened Basics
  import opened MeshCoreSettings
  import opened MeshCoreRefinement

  // ---------------------------------------------------------------- does a validated plan ever fail on its own checks?

  // Every command is acknowledged and every read answered.
  ghost predicate Clean(log: seq<Exchange>) {
    forall i | 0 <= i < |log| :: log[i].reply.write.WriteAcked? && log[i].reply.read.Report?
  }

  // A command that was carried out is what a truthful read then shows.
  lemma DoneMatches(r: Settings, plan: Plan, raw: Settings, g: Group, c: Command, info: Readback)
    requires Prepare(g, plan, raw) == Some(c) && Truthful(Effect(r, c), c, info)
    ensures Matches(c, info)
  {
  }

  lemma RunGroupFails(r: Settings, plan: Plan, p: Progress, g: Group, reply: Reply, took: Took)
    requires Shaped(plan) && Fits(plan, r) && p.status.Running? && Tracks(r, plan, p, took) && PathsOf(g, plan) != {}
    requires Honest(r, RunGroup(p, plan, g, reply).log, took)
    ensures RunGroup(p, plan, g, reply).status == Failed(ValidationError) <==> g.OtherGroup? && FloatSelect(plan)
    ensures RunGroup(p, plan, g, reply).log == p.log <==> g.OtherGroup? && FloatSelect(plan)
    ensures Clean(RunGroup(p, plan, g, reply).log) ==>
              RunGroup(p, plan, g, reply).status
              == if g.OtherGroup? && FloatSelect(plan) then Failed(ValidationError) else Running
  {
    OverrideFits(plan, r, p.verified);
    AgreeingFits(plan, p.raw, RadioAfter(r, p.log, took));
    FitsPrepares(plan, p.raw, g);
    if Prepare(g, plan, p.raw).Some? {
      WriteThenVerifyExchanges(p, plan, g, Prepare(g, plan, p.raw).value, reply);
      CleanExchangeRuns(r, plan, p, g, Prepare(g, plan, p.raw).value, reply, took);
    }
  }

  // An acknowledged write that an honest radio then reports is found verified.
  lemma CleanExchangeRuns(r: Settings, plan: Plan, p: Progress, g: Group, c: Command, reply: Reply, took: Took)
    requires Shaped(plan) && Fits(plan, r) && p.status.Running? && Tracks(r, plan, p, took)
    requires Prepare(g, plan, p.raw) == Some(c)
    requires WriteThenVerify(p, plan, g, c, reply).log == p.log + [Exchange(g, c, reply)]
    requires Honest(r, WriteThenVerify(p, plan, g, c, reply).log, took)
    ensures WriteThenVerify(p, plan, g, c, reply).status != Failed(ValidationError)
    ensures Clean(WriteThenVerify(p, plan, g, c, reply).log) ==> WriteThenVerify(p, plan, g, c, reply).status == Running
  {
    var x := Exchange(g, c, reply);
    HonestLast(r, p.log, x, took);
    RadioAfterExchange(r, p.log, x, took);
    assert (p.log + [x])[|p.log|] == x;
    if reply.write.WriteAcked? && reply.read.Report? {
      DoneMatches(RadioAfter(r, p.log, took), plan, p.raw, g, c, reply.read.info);
      TruthAnswers(RadioAfter(r, p.log + [x], took), c, reply.read.info);
    }
  }

  lemma {:induction false} ExecuteFails(
    r: Settings, plan: Plan, p: Progress, groups: seq<Group>, replies: Replies, took: Took)
    requires Shaped(plan) && Fits(plan, r) && p.status.Running? && Tracks(r, plan, p, took)
    requires Ordered(groups) && Elsewhere(p.verified, groups)
    requires forall i | 0 <= i < |groups| :: PathsOf(groups[i], plan) != {}
    requires Honest(r, Execute(p, plan, groups, replies).log, took)
    ensures var q := Execute(p, plan, groups, replies);
            && (q.status == Failed(ValidationError) ==> FloatSelect(plan) && OtherGroup in groups)
            && (Clean(q.log) ==>
                  q.status == (if FloatSelect(plan) && OtherGroup in groups then Failed(ValidationError) else Running))
            && (FloatSelect(plan) && groups != [] ==> (q.log == p.log <==> groups[0].OtherGroup?))
    decreases |groups|
  {
    if groups != [] {
      var g := groups[0];
      var q := RunGroup(p, plan, g, replies(g));
      ExecuteExtends(q, plan, groups[1..], replies);
      HonestPrefix(r, q.log, Execute(p, plan, groups, replies).log, took);
      ElsewhereStep(p.verified, plan, groups);
      RunGroupTracks(r, plan, p, g, replies(g), took);
      RunGroupFails(r, plan, p, g, replies(g), took);
      LogGrows(p, plan, g, replies(g));
      if q.status.Running? {
        ExecuteFails(r, plan, q, groups[1..], replies, took);
      }
    }
  }

  lemma LogGrows(p: Progress, plan: Plan, g: Group, r: Reply)
    ensures p.log <= RunGroup(p, plan, g, r).log
  {
  }

  predicate EditsNameOrPosition(plan: Plan) {
    NamePath in plan || LatPath in plan || LonPath in plan
  }

  // How a run over the plan's groups can fail the executor's own checks.
  ghost predicate FailsInOther(plan: Plan, p: Progress, groups: seq<Group>) {
    && (p.status == Failed(ValidationError) ==> FloatSelect(plan) && OtherGroup in groups)
    && (Clean(p.log) ==>
          p.status == (if FloatSelect(plan) && OtherGroup in groups then Failed(ValidationError) else Running))
    && (FloatSelect(plan) && groups != [] ==> (p.log == [] <==> groups[0].OtherGroup?))
  }

  lemma GroupsFailInOther(plan: Plan, raw: Settings, r: Settings, replies: Replies, took: Took)
    requires Shaped(plan) && Fits(plan, raw) && Agrees(raw, r)
    requires Honest(r, Execute(Begin(raw), plan, Groups(plan), replies).log, took)
    ensures FailsInOther(plan, Execute(Begin(raw), plan, Groups(plan), replies), Groups(plan))
  {
    ValidGroups(plan);
    InitiallyTracks(r, plan, raw, took);
    ExecuteFails(r, plan, Begin(raw), Groups(plan), replies, took);
  }

  lemma ShapedPlanFails(plan: Plan, raw: Settings, r: Settings, replies: Replies, took: Took)
    requires Shaped(plan) && Fits(plan, raw) && Agrees(raw, r)
    requires Honest(r, ApplyPlan(plan, raw, replies).log, took)
    ensures var p := ApplyPlan(plan, raw, replies);
            && (p.status == Failed(ValidationError) ==> FloatSelect(plan))
            && (Clean(p.log) ==> p.status == if FloatSelect(plan) then Failed(ValidationError) else Running)
            && (FloatSelect(plan) ==> (p.log != [] <==> EditsNameOrPosition(plan)))
  {
    ShapedNeedsNoRadio(plan);
    GroupsFailInOther(plan, raw, r, replies, took);
    if FloatSelect(plan) {
      FloatSelectRunsOther(plan);
    }
  }

  /** Validated plans and the executor's own checks.  Against an honest radio a validated plan can
      fail those checks only when it gives a select field a float.  When nothing else goes wrong it
      fails exactly then, and it fails half-way, after a write, exactly when it also edits the name
      or the position. */
  lemma ValidPlanFailsOnlyOnFloats(plan: Plan, sup: Support, raw: Settings, r: Settings, replies: Replies, took: Took)
    requires ValidPlan(plan, sup, raw) && Agrees(raw, r)
    requires Honest(r, ApplyPlan(plan, raw, replies).log, took)
    ensures var p := ApplyPlan(plan, raw, replies);
            var halfWay := p.status == Failed(ValidationError) && p.log != [];
            && (p.status == Failed(ValidationError) ==> FloatSelect(plan))
            && (halfWay ==> EditsNameOrPosition(plan))
            && (Clean(p.log) ==>
                  && p.status == (if FloatSelect(plan) then Failed(ValidationError) else Running)
                  && (halfWay <==> FloatSelect(plan) && EditsNameOrPosition(plan)))
  {
    ValidPlanShaped(plan, sup, raw);
    ValidPlanFits(plan, sup, raw);
    ShapedPlanFails(plan, raw, r, replies, took);
  }

  lemma FloatSelectRunsOther(plan: Plan)
    requires FloatSelect(plan) && Shaped(plan)
    ensures OtherGroup in Groups(plan)
    ensures Groups(plan)[0].OtherGroup? <==> !EditsNameOrPosition(plan)
  {
    var path :| path in plan.Keys && path.ParamPath? && plan[path].Number?;
    PathsAreHome(OtherGroup, plan);
    assert path in PathsOf(OtherGroup, plan);
    GroupsAreEdited(plan);
    assert LatPath in PathsOf(CoordGroup, plan) <==> LatPath in plan;
    assert LonPath in PathsOf(CoordGroup, plan) <==> LonPath in plan;
  }

  const FLOAT_SELECT_PLAN: Plan := map[NamePath := Text("n"), ParamPath(TelemetryBase) := Number(1.0)]

  lemma FloatSelectGroups()
    ensures Groups(FLOAT_SELECT_PLAN) == [NameGroup, OtherGroup]
    ensures PathsOf(NameGroup, FLOAT_SELECT_PLAN) == {NamePath}
    ensures !EditsRadio(FLOAT_SELECT_PLAN)
  {
    assert FLOAT_SELECT_PLAN.Keys == {NamePath, ParamPath(TelemetryBase)};
    EveryParam(TelemetryBase);
    assert ParamPath(TelemetryBase) in PathsOf(OtherGroup, FLOAT_SELECT_PLAN);
    assert PathsOf(CoordGroup, FLOAT_SELECT_PLAN) == {};
    assert ChannelIndexes(FLOAT_SELECT_PLAN) == {};
  }

  lemma FloatSelectIsValid(sup: Support, raw: Settings)
    requires Writable(NamePath, sup, raw) && Writable(ParamPath(TelemetryBase), sup, raw)
    ensures ValidPlan(FLOAT_SELECT_PLAN, sup, raw)
  {
  }

  lemma FloatSelectFirst(raw: Settings, replies: Replies)
    requires replies(NameGroup) == Reply(WriteAcked, Report(SelfRead(raw.self.(name := "n"))))
    ensures var p := RunGroup(Begin(raw), FLOAT_SELECT_PLAN, NameGroup, replies(NameGroup));
            p.status.Running? && p.verified == {NamePath}
  {
  }

  lemma FloatSelectSecond(p: Progress, r: Reply)
    requires p.status.Running?
    ensures var q := RunGroup(p, FLOAT_SELECT_PLAN, OtherGroup, r);
            q.status == Failed(ValidationError) && q.verified == p.verified
  {
    EveryParam(TelemetryBase);
    assert DesiredParam(FLOAT_SELECT_PLAN, p.raw, TelemetryBase).None?;
  }

  /** The case that does fail half-way: a new name and the select value 1.0. */
  lemma FloatSelectExample(sup: Support, raw: Settings, replies: Replies)
    requires Writable(NamePath, sup, raw) && Writable(ParamPath(TelemetryBase), sup, raw)
    requires replies(NameGroup) == Reply(WriteAcked, Report(SelfRead(raw.self.(name := "n"))))
    ensures ValidPlan(FLOAT_SELECT_PLAN, sup, raw)
    ensures ApplyPlan(FLOAT_SELECT_PLAN, raw, replies).status == Failed(ValidationError)
    ensures ApplyPlan(FLOAT_SELECT_PLAN, raw, replies).verified == {NamePath}
  {
    FloatSelectIsValid(sup, raw);
    FloatSelectGroups();
    FloatSelectFirst(raw, replies);
    var p1 := RunGroup(Begin(raw), FLOAT_SELECT_PLAN, NameGroup, replies(NameGroup));
    FloatSelectSecond(p1, replies(OtherGroup));
    ExecuteConcat(Begin(raw), FLOAT_SELECT_PLAN, [NameGroup], [OtherGroup], replies);
    assert [NameGroup] + [OtherGroup] == [NameGroup, OtherGroup];
    ExecuteOne(Begin(raw), FLOAT_SELECT_PLAN, NameGroup, replies);
    ExecuteOne(p1, FLOAT_SELECT_PLAN, OtherGroup, replies);
  }

  lemma ExecuteOne(p: Progress, plan: Plan, g: Group, replies: Replies)
    ensures Execute(p, plan, [g], replies) == RunGroup(p, plan, g, replies(g))
  {
  }
}
