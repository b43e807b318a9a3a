/**
The executor of a MeshCore settings plan as the object it is: lists and a status, updated group by group.
*/
module MeshCoreExecutor {
  import opened Basics
  import opened MeshCoreSettings

  // A run that stopped with edits not applied says so.
  function Conclude(p: Progress, plan: Plan): Progress {
    if p.status.Stopped? && plan.Keys - p.applied != {} then p.(warnings := p.warnings + [PlanStopped]) else p
  }

  /** A run warns of a stopped plan exactly when it stopped while an edit had not been applied; it changes nothing
      else. */
  lemma StoppedPlanSaysSo(p: Progress, plan: Plan)
    ensures Conclude(p, plan) == p.(warnings := Conclude(p, plan).warnings)
    ensures Conclude(p, plan).warnings
         == p.warnings + (if p.status.Stopped? && exists path :: path in plan && path !in p.applied
                          then [PlanStopped] else [])
  {
    var left := plan.Keys - p.applied;
    if left != {} {
      var path := Element(left);
      assert path in plan && path !in p.applied;
    }
    if path :| path in plan && path !in p.applied {
      assert path in left;
    }
  }

  /** One settings run: the executor's lists and its freshest reads, updated command by command. */
  class SettingsRun {
    var raw: Settings
    var applied: set<Path>
    var verified: set<Path>
    var warnings: seq<Warning>
    var status: Status
    var log: seq<Exchange>

    ghost function View(): Progress
      reads this
    {
      Progress(raw, applied, verified, warnings, status, log)
    }

    constructor (raw: Settings)
      ensures View() == Begin(raw)
    {
      this.raw := raw;
      applied, verified, warnings, status, log := {}, {}, [], Running, [];
    }

    method SendAndVerify(plan: Plan, g: Group, c: Command, r: Reply)
      requires status.Running?
      modifies this
      ensures View() == WriteThenVerify(old(View()), plan, g, c, r)
    {
      var uncertain := r.write.WriteTimedOut?;
      log := log + [Exchange(g, c, r)];
      match r.write {
        case WriteCancelled => status := Failed(Cancelled); return;
        case WriteLinkLost => status := Failed(LinkLost); return;
        case WriteRefused => status := Failed(Rejected); return;
        case _ =>
      }
      match r.read {
        case ReadCancelled => status := Failed(Cancelled); return;
        case ReadLinkLost => status := Failed(LinkLost); return;
        case _ =>
      }
      if !r.read.Report? || !Answers(c, r.read.info) {
        if uncertain {
          status := Failed(UnknownState);
          return;
        }
        applied := applied + PathsOf(g, plan);
        warnings := warnings + [ReadbackUnavailable];
        status := Stopped;
        return;
      }
      raw := Refresh(raw, c, r.read.info);
      var confirmed := Matches(c, r.read.info);
      if uncertain && !confirmed {
        status := Failed(UnknownState);
        return;
      }
      applied := applied + PathsOf(g, plan);
      if confirmed {
        verified := verified + PathsOf(g, plan);
        if uncertain {
          warnings := warnings + [ConfirmedAfterTimeout];
        }
      } else {
        warnings := warnings + [ReadbackMismatch];
        status := Stopped;
      }
    }

    method ApplyGroup(plan: Plan, g: Group, r: Reply)
      modifies this
      ensures View() == RunGroup(old(View()), plan, g, r)
    {
      if !status.Running? {
        return;
      }
      var c := Prepare(g, plan, raw);
      if c.None? {
        status := Failed(ValidationError);
      } else {
        SendAndVerify(plan, g, c.value, r);
      }
    }

    // Runs g if it is present, extending the groups done so far.
    method ApplyIf(present: bool, plan: Plan, g: Group, replies: Replies, ghost start: Progress, ghost done: seq<Group>)
      requires View() == Execute(start, plan, done, replies)
      modifies this
      ensures View() == Execute(start, plan, done + When(present, g), replies)
    {
      ExecuteConcat(start, plan, done, When(present, g), replies);
      if present {
        ApplyGroup(plan, g, replies(g));
      }
    }

    method ApplySingles(plan: Plan, replies: Replies)
      modifies this
      ensures View() == Execute(old(View()), plan, Singles(plan), replies)
    {
      ghost var start := View();
      ghost var done: seq<Group> := [];
      ApplyIf(NamePath in plan, plan, NameGroup, replies, start, done);
      done := done + When(NamePath in plan, NameGroup);
      ApplyIf(PathsOf(CoordGroup, plan) != {}, plan, CoordGroup, replies, start, done);
      done := done + When(PathsOf(CoordGroup, plan) != {}, CoordGroup);
      ApplyIf(PathsOf(OtherGroup, plan) != {}, plan, OtherGroup, replies, start, done);
      done := done + When(PathsOf(OtherGroup, plan) != {}, OtherGroup);
      ApplyIf(TxPath in plan, plan, TxGroup, replies, start, done);
      done := done + When(TxPath in plan, TxGroup);
      assert done == Singles(plan);
    }

    method ApplyChannels(plan: Plan, replies: Replies)
      modifies this
      ensures View() == Execute(old(View()), plan, ChannelGroups(ChannelIndexes(plan)), replies)
    {
      var indexes := ChannelIndexes(plan);
      ghost var end := Execute(View(), plan, ChannelGroups(indexes), replies);
      while indexes != {}
        invariant Execute(View(), plan, ChannelGroups(indexes), replies) == end
        decreases |indexes|
      {
        var index := Least(indexes);
        assert ChannelGroups(indexes)[1..] == ChannelGroups(indexes - {index});
        ApplyGroup(plan, ChannelGroup(index), replies(ChannelGroup(index)));
        indexes := indexes - {index};
      }
    }

    method ApplyLocked(plan: Plan, replies: Replies)
      requires View() == Begin(raw)
      modifies this
      ensures View() == Conclude(ApplyPlan(plan, old(raw), replies), plan)
    {
      if exists path | path in plan.Keys :: path.RadioPath? {
        status := Failed(ValidationError);
        return;
      }
      ghost var start := View();
      ghost var channels := ChannelGroups(ChannelIndexes(plan));
      ApplySingles(plan, replies);
      ApplyChannels(plan, replies);
      ExecuteConcat(start, plan, Singles(plan), channels, replies);
      ApplyIf(PinPath in plan, plan, PinGroup, replies, start, Singles(plan) + channels);
      if status.Stopped? && plan.Keys - applied != {} {
        warnings := warnings + [PlanStopped];
      }
    }
  }
}
