/** What holds in every reachable state of the apply pipeline, in every interleaving and under either driver. */
module ApplyTheorems {
  import opened Text
  import RuleTable
  import opened Stores
  import opened Applier
  import opened ApplyMachine
  import opened ApplyInvariant
  import opened ApplyRuns
  import Systemd

  function ProcOf(s: State, p: nat): Proc {
    if p in s.procs then s.procs[p] else Over
  }

  // The goroutine inside the gate, in a reachable state.
  lemma Inside(run: seq<State>, i: nat, p: nat)
    requires Run(run) && i < |run| && IsVarying(run[i], p)
    ensures Facts(run[i].drv, run[i].d, Some(run[i].procs[p].v)) && run[i].gate == Some(p)
  {
    hide Run, Facts, GateHeld, HolderOf;
    RunInv(run, i);
    HolderIs(run[i], p);
  }

  /** The published table is the active version's, except between the two writes of a commit. */
  lemma PublishedFollowsActive(run: seq<State>, i: nat)
    requires Run(run) && i < |run|
    requires forall p :: IsVarying(run[i], p) ==> !IsPublishing(run[i].procs[p].v)
    ensures run[i].d.published == TableOf(run[i].d.versions, run[i].d.active)
    ensures run[i].d.active.None? ==> run[i].d.published == []
    ensures run[i].d.active.Some? ==>
              var d := run[i].d;
              d.active.value in d.versions
              && d.published == match d.versions[d.active.value].rules
                                case None => []
                                case Some(rules) => RuleTable.ScanOrder(rules)
  {
    hide Run, TableOf, SwitchFacts, ExitFacts, RowFacts, HostFacts, RuleStagesOk, RuleTable.ScanOrder;
    RunInv(run, i);
    TableIs(run[i].d.versions, run[i].d.active);
  }

  lemma TableIs(versions: map<nat, Version>, active: Option<nat>)
    requires active.Some? ==> active.value in versions
    ensures TableOf(versions, active) == match active
                                         case None => []
                                         case Some(v) => match versions[v].rules
                                           case None => []
                                           case Some(rules) => RuleTable.ScanOrder(rules)
  {
  }

  // ---------- outcomes ----------

  /** When a rules apply writes its terminal state: confirmed means active version and published table are the
      target's; rolled_back and failed mean both are what they were when it read them. Its row is still open. */
  lemma RuleApplyOutcome(run: seq<State>, i: nat, p: nat)
    requires Run(run) && i < |run| && IsVarying(run[i], p)
    requires run[i].procs[p].v.Finishing? && run[i].procs[p].v.fstage.RuleEnding?
    ensures var d, job, st := run[i].d, run[i].procs[p].v.job, run[i].procs[p].v.fstage.st;
            && job.RuleJob? && !st.Submitted?
            && d.active == (if st.Confirmed? then Some(job.target) else job.prior)
            && d.published == TableOf(d.versions, d.active)
            && job.row < |d.rows| && d.rows[job.row] == StatusRow(job.snap, Submitted, 0)
  {
    hide Run, TableOf, SwitchFacts, ExitFacts, HostFacts;
    Inside(run, i, p);
  }

  /** When an exit switch writes its terminal state: confirmed means the target is active; otherwise the prior exit is
      active exactly when putting it back worked, which rolled_back always means. Its row is still open. */
  lemma SwitchOutcome(run: seq<State>, i: nat, p: nat)
    requires Run(run) && i < |run| && IsVarying(run[i], p)
    requires run[i].procs[p].v.Finishing? && run[i].procs[p].v.fstage.SwitchEnding?
    ensures var d, job, stage := run[i].d, run[i].procs[p].v.job, run[i].procs[p].v.fstage;
            && job.SwitchJob? && !stage.st.Submitted?
            && d.exits.active == (if stage.reverted then {job.from} else {job.to})
            && (stage.st.Confirmed? ==> !stage.reverted) && (stage.st.RolledBack? ==> stage.reverted)
            && {job.from, job.to} <= d.exits.present
            && job.row < |d.rows| && d.rows[job.row] == StatusRow(job.snap, Submitted, 0)
  {
    hide Run, TableOf, SwitchFacts, RuleFacts, HostFacts, Protect;
    Inside(run, i, p);
  }

  // ---------- exits ----------

  /** Exactly one exit is active, and it exists. */
  lemma OneActiveExit(run: seq<State>, i: nat)
    requires Run(run) && i < |run|
    ensures exists id :: run[i].d.exits.active == {id} && id in run[i].d.exits.present && id != ""
  {
    hide Run, TableOf, SwitchFacts, RuleFacts, HostFacts, RowFacts, Protect, ProtectedBy;
    RunInv(run, i);
    ActiveOne(run[i].d.exits, run[i].d.protected, run[i].d.synced, HolderOf(run[i]));
    var id :| run[i].d.exits.active == {id};
    assert id in run[i].d.exits.active;
  }

  lemma ActiveOne(exits: Exits, protected: map<string, nat>, synced: bool, v: Holder)
    requires ExitFacts(exits, protected, synced, v)
    ensures OneActive(exits)
  {
    hide Protect, ProtectedBy;
  }

  predicate Compensates(v: Variation) {
    (v.SwitchStart? && v.sstage.SReverting?) || (v.Finishing? && v.fstage.Compensating?)
  }

  function Prior(v: Variation): string
    requires Compensates(v)
  {
    if v.SwitchStart? then v.from else if v.job.SwitchJob? then v.job.from else ""
  }

  /** A compensation always finds the prior exit, so only a store fault can fail it, and otherwise puts it back. */
  lemma CompensationFindsPrior(run: seq<State>, i: nat, p: nat, ok: bool)
    requires Run(run) && i < |run| && IsVarying(run[i], p) && Compensates(run[i].procs[p].v)
    ensures var d, from := run[i].d, Prior(run[i].procs[p].v);
            && from != "" && from in d.exits.present
            && Compensate(d, from, ok).1 == ok
            && (ok ==> Compensate(d, from, ok).0.exits.active == {from})
  {
    hide Run, TableOf, SwitchFacts, RuleFacts, HostFacts, RowFacts, Protect;
    Inside(run, i, p);
  }

  /** A delete that is about to remove a row holds neither the active exit nor a side of a switch in flight. */
  lemma DeleteSparesSwitch(run: seq<State>, i: nat, p: nat)
    requires Run(run) && i < |run| && p in run[i].procs && run[i].procs[p].DeleteLooked?
    ensures var id := run[i].procs[p].id;
            id !in run[i].d.exits.active && (id != "" ==> id !in Sides(HolderOf(run[i])))
  {
    hide Run, TableOf, SwitchFacts, RuleFacts, HostFacts, RowFacts, Protect, Sides, ExitFacts, Count, HolderOf;
    RunInv(run, i);
    var id := run[i].procs[p].id;
    if id in Sides(HolderOf(run[i])) && id != "" {
      SidesProtected(run[i].d.exits, run[i].d.protected, run[i].d.synced, HolderOf(run[i]), id);
    }
  }

  /** Nothing is protected while no switch is in hand. */
  lemma ProtectionOnlyDuringSwitch(run: seq<State>, i: nat)
    requires Run(run) && i < |run| && Sides(HolderOf(run[i])) == {}
    ensures run[i].d.protected == map[]
  {
    hide Run, TableOf, SwitchFacts, RuleFacts, HostFacts, RowFacts, Protect;
    RunInv(run, i);
  }

  // ---------- the gate, the rows, the locks ----------

  /** At most one variation at a time; every admitted one but the one in hand has released the gate exactly once. */
  lemma OneVariationAtATime(run: seq<State>, i: nat, p: nat, q: nat)
    requires Run(run) && i < |run|
    ensures IsVarying(run[i], p) && IsVarying(run[i], q) ==> p == q
    ensures IsVarying(run[i], p) ==> run[i].begun == run[i].ended + 1
    ensures run[i].gate.None? ==> run[i].begun == run[i].ended && !IsVarying(run[i], p)
    ensures run[i].gate.Some? ==> IsVarying(run[i], run[i].gate.value)
  {
    hide Run, Facts, ApplyHeld, MuHeld;
    RunInv(run, i);
  }

  /** Every status row has had exactly one terminal update, except the row of the variation in hand, which may
      still be waiting for its own. */
  lemma RowsClosedOnce(run: seq<State>, i: nat, r: nat)
    requires Run(run) && i < |run| && r < |run[i].d.rows|
    ensures run[i].d.rows[r].attempts <= 1
    ensures run[i].d.rows[r].attempts == 0 ==>
              OpenRow(HolderOf(run[i])).Some? && OpenRow(HolderOf(run[i])).value.0 == r
    ensures run[i].gate.None? ==> run[i].d.rows[r].attempts == 1
  {
    hide Run, RuleFacts, SwitchFacts, ExitFacts, HostFacts;
    RunInv(run, i);
  }

  /** The driver refuses a request as already in flight only while a finished observer has yet to unlock. */
  lemma RefusedOnlyBehindObserver(run: seq<State>, i: nat, p: nat)
    requires Run(run) && i < |run| && AtDispatch(run[i], p) && run[i].applyMu.Some?
    ensures ProcOf(run[i], run[i].applyMu.value) == Unlocking
  {
    hide Run, Facts, MuHeld;
    RunInv(run, i);
  }

  /** The second commitRuleApply of a confirmed apply always finds it committed. */
  lemma RecommitReturnsAtOnce(run: seq<State>, i: nat, p: nat)
    requires Run(run) && i < |run| && IsVarying(run[i], p)
    requires run[i].procs[p].v.Finishing? && run[i].procs[p].v.fstage.Recommitting?
    ensures var snap := run[i].procs[p].v.job.snap;
            snap in run[i].d.inflight && run[i].d.inflight[snap].committed
  {
    hide Run, TableOf, SwitchFacts, ExitFacts, HostFacts, RowFacts;
    Inside(run, i, p);
  }

  /** rollbackRuleApply never has anything to take back. */
  lemma UnpublishReturnsAtOnce(run: seq<State>, i: nat, p: nat)
    requires Run(run) && i < |run| && IsVarying(run[i], p)
    requires run[i].procs[p].v.Finishing? && run[i].procs[p].v.fstage.Unpublishing?
    ensures var snap := run[i].procs[p].v.job.snap;
            snap in run[i].d.inflight && !run[i].d.inflight[snap].committed
  {
    hide Run, TableOf, SwitchFacts, ExitFacts, HostFacts, RowFacts;
    Inside(run, i, p);
  }

  // ---------- the host ----------

  /** Under systemd, when a variation ends with its request in force, the three files and the three units all show the
      active rule version and the active exit, whatever failed before it. */
  lemma ConfirmedEndShowsDatabase(run: seq<State>, i: nat, p: nat)
    requires Run(run) && i < |run| && run[i].drv.SystemdDriver? && ConfirmedEnd(run[i], p)
    ensures run[i].d.host == Systemd.InSync(Config(RulesOf(run[i].d.versions, run[i].d.active), run[i].d.exits.active))
    ensures StillSynced(run[i])
  {
    hide Run, TableOf, RulesOf, SwitchFacts, RuleFacts, ExitFacts, RowFacts, Systemd.InSync;
    Inside(run, i, p);
    HolderIsInside(run, i, p);
  }

  predicate ConfirmedEnd(s: State, p: nat) {
    IsVarying(s, p) && s.procs[p].v.Ending? && (s.procs[p].v.fin.RuleMoved? || s.procs[p].v.fin.SwitchMoved?)
  }

  // A step at which putting the host or the database back fails.
  predicate Spoils(v: Variation, c: Choice) {
    match v
    case SwitchStart(_, _, stage) => stage.SReverting? && !c.ok
    case Finishing(_, stage, _) => stage.Compensating? && !c.ok
    case Driving(_, _, stage) =>
      (match stage
       case Working => c.res.Failed? && !c.res.stage.Snapshotting?
       case CommitRefused(caller) => !caller.InNoOp? && !c.ok
       case Probing(_, _) => !c.abort && c.res.Failed?
       case _ => false)
    case _ => false
  }

  predicate SpoilsAt(s: State, act: Action) {
    act.Vary? && IsVarying(s, act.p) && Spoils(s.procs[act.p].v, act.c)
  }

  ghost predicate NothingSpoilt(run: seq<State>, b: nat, i: nat) {
    b <= i < |run| &&
    forall j, act :: b <= j < i && Enabled(run[j], act) && run[j + 1] == Do(run[j], act) ==> !SpoilsAt(run[j], act)
  }

  // The host shows the database, or did when the snapshot in hand was taken.
  predicate Kept(synced: bool, v: Holder) {
    && synced
    && (v.Some? && v.value.Driving? ==>
          match v.value.stage
          case Committing(caller) => caller.InNoOp? || caller.was
          case Activating(caller) => caller.InNoOp? || caller.was
          case Publishing(caller) => caller.InNoOp? || caller.was
          case CommitRefused(caller) => caller.InNoOp? || caller.was
          case Probing(_, was) => was
          case _ => true)
  }

  predicate StillSynced(s: State) {
    Kept(s.d.synced, HolderOf(s))
  }

  lemma StartStaysKept(d: Data, v: Variation, c: Choice)
    requires (v.RuleStart? || v.SwitchStart?) && !Spoils(v, c) && d.synced
    requires v.SwitchStart? ==> ExitStagesOk(d.exits, d.synced, Some(v)) && !Has(d.exits, "")
    ensures var (d', v') := if v.RuleStart? then RuleNext(d, v, c) else SwitchNext(d, v, c); Kept(d'.synced, Some(v'))
  {
    hide TableOf, RulesOf, Protect;
  }

  lemma DrivingStaysKept(drv: Driver, d: Data, job: Job, cfg: Config, stage: DriveStage, c: Choice)
    requires DriveCan(drv, d, job, cfg, stage, c) && !Spoils(Driving(job, cfg, stage), c)
    requires Kept(d.synced, Some(Driving(job, cfg, stage)))
    ensures var (d', v') := DriveNext(d, job, cfg, stage, c); Kept(d'.synced, Some(v'))
  {
    hide TableOf, RulesOf, Systemd.Lands, Systemd.Observed;
  }

  lemma FinishingStaysKept(d: Data, job: Job, stage: FinishStage, obs: bool, c: Choice)
    requires FinishCan(d, job, stage) && !Spoils(Finishing(job, stage, obs), c) && d.synced
    requires ExitFacts(d.exits, d.protected, d.synced, Some(Finishing(job, stage, obs)))
    ensures var (d', v') := FinishNext(d, job, stage, obs, c); Kept(d'.synced, Some(v'))
  {
    hide UpdateRow, ProtectedBy;
  }

  lemma NextStaysKept(drv: Driver, d: Data, v: Variation, c: Choice)
    requires Can(drv, d, v, c) && Facts(drv, d, Some(v)) && Kept(d.synced, Some(v)) && !Spoils(v, c)
    ensures var (d', v') := Next(drv, d, v, c); Kept(d'.synced, Some(v'))
  {
    hide RuleFacts, RowFacts, HostFacts, SwitchFacts, Protect, TableOf, Unprotect, RuleNext, SwitchNext, DriveNext, FinishNext,
         SwitchCan, DriveCan, FinishCan, FinishFits, StageFits, ExitStagesOk, Spoils, ProtectedBy;
    match v {
      case Driving(job, cfg, stage) => DrivingStaysKept(drv, d, job, cfg, stage, c);
      case Finishing(job, stage, obs) => FinishingStaysKept(d, job, stage, obs, c);
      case RuleStart(_, _, _, _) => StartStaysKept(d, v, c);
      case SwitchStart(_, _, _) => StartStaysKept(d, v, c);
      case _ =>
    }
  }

  lemma StepStaysSynced(s: State, act: Action)
    requires Inv(s) && Enabled(s, act) && StillSynced(s) && !SpoilsAt(s, act)
    ensures StillSynced(Do(s, act))
  {
    hide Facts, ApplyHeld, MuHeld, DeletesSafe, GateHeld, HolderOf, Can, Next, NeedsMu, Releases, Count, Spoils;
    var s' := Do(s, act);
    StepKeepsInv(s, act);
    match act {
      case Vary(p, c) =>
        HolderIs(s, p);
        HolderIs(s', p);
        NextStaysKept(s.drv, s.d, s.procs[p].v, c);
      case TryLock(p) =>
        HolderIs(s, p);
        HolderIs(s', p);
      case Observe(p, q, host) =>
        HolderIs(s, p);
        HolderIs(s', q);
      case AddExit(_) => SameProcs(s, s');
      case AddVersion(_, _) => SameProcs(s, s');
      case BeginRule(p, _, _, _) => BeganHolder(s, act);
      case BeginSwitch(p, _) => BeganHolder(s, act);
      case End(_) => NoHolder(s');
      case _ => SameHolder(s, s', act.p, s'.procs[act.p]);
    }
  }

  lemma BeganHolder(s: State, act: Action)
    requires Inv(s) && Enabled(s, act) && (act.BeginRule? || act.BeginSwitch?)
    ensures s.gate.Some? ==> HolderOf(Do(s, act)) == HolderOf(s)
    ensures s.gate.None? ==> HolderOf(Do(s, act)).Some? && JustBegun(HolderOf(Do(s, act)).value)
  {
    hide Facts, ApplyHeld, MuHeld, DeletesSafe, HolderOf, GateHeld;
    var s' := Do(s, act);
    StepKeepsInv(s, act);
    if s.gate.Some? {
      SameHolder(s, s', act.p, Over);
    } else {
      HolderIs(s', act.p);
    }
  }

  lemma {:induction false} SyncedThroughout(run: seq<State>, b: nat, i: nat)
    requires Run(run) && NothingSpoilt(run, b, i) && StillSynced(run[b])
    ensures StillSynced(run[i])
    decreases i - b
  {
    hide Run, Enabled, Do, Inv, StillSynced, SpoilsAt;
    if b < i {
      SyncedThroughout(run, b, i - 1);
      RunInv(run, i - 1);
      var act := StepAt(run, i);
      assert run[i - 1 + 1] == Do(run[i - 1], act);
      StepStaysSynced(run[i - 1], act);
    }
  }

  /** Under systemd and idle: if nothing has failed to be put back since the start, or since some variation ended with
      its request in force, the three files and the three units all show the active version and the active exit. */
  lemma IdleHostShowsDatabase(run: seq<State>, b: nat, i: nat, p: nat)
    requires Run(run) && NothingSpoilt(run, b, i) && (b == 0 || ConfirmedEnd(run[b], p))
    requires run[i].drv.SystemdDriver? && run[i].gate.None?
    ensures run[i].d.host == Systemd.InSync(Config(RulesOf(run[i].d.versions, run[i].d.active), run[i].d.exits.active))
    ensures run[i].d.active.None? ==> run[i].d.host == Systemd.InSync(Config([], run[i].d.exits.active))
    ensures forall rules :: run[i].d.active.Some? && run[i].d.active.value in run[i].d.versions
                            && run[i].d.versions[run[i].d.active.value].rules == Some(rules) ==>
                              run[i].d.host == Systemd.InSync(Config(rules, run[i].d.exits.active))
  {
    RulesAre(run[i].d.versions, run[i].d.active);
    hide Run, TableOf, RulesOf, SwitchFacts, RuleFacts, ExitFacts, RowFacts, Systemd.InSync, HolderOf;
    DriverStays(run, b, i);
    if ConfirmedEnd(run[b], p) {
      ConfirmedEndShowsDatabase(run, b, p);
    } else {
      StartsSynced(run);
    }
    SyncedThroughout(run, b, i);
    RunInv(run, i);
    NoHolder(run[i]);
  }

  lemma RulesAre(versions: map<nat, Version>, active: Option<nat>)
    ensures active.None? ==> RulesOf(versions, active) == []
    ensures forall rules :: active.Some? && active.value in versions && versions[active.value].rules == Some(rules) ==>
                              RulesOf(versions, active) == rules
  {
  }

  lemma StartsSynced(run: seq<State>)
    requires Run(run)
    ensures StillSynced(run[0])
  {
    RunStarts(run);
    NoHolder(run[0]);
  }

  lemma {:induction false} DriverStays(run: seq<State>, b: nat, i: nat)
    requires Run(run) && b <= i < |run|
    ensures run[i].drv == run[b].drv
    decreases i - b
  {
    hide Run, Enabled, Do;
    if b < i {
      DriverStays(run, b, i - 1);
      var act := StepAt(run, i);
      DriverSame(run[i - 1], act);
    }
  }

  lemma DriverSame(s: State, act: Action)
    requires Enabled(s, act)
    ensures Do(s, act).drv == s.drv
  {
    hide Can, Next, NeedsMu, Releases, Count;
  }

  // ---------- one variation from its beginning to its end ----------

  datatype Ask = ForRules(target: nat) | ForExit(to: string)

  // What a variation asked for, and the active version and exits it found.
  datatype Entry = Entry(ask: Ask, active: Option<nat>, exits: set<string>)

  predicate OfJob(active: Option<nat>, exits: set<string>, job: Job, e: Entry) {
    match job
    case RuleJob(_, _, target, prior) => e.ask == ForRules(target) && prior == e.active && exits == e.exits
    case SwitchJob(_, _, to, from) => e.ask == ForExit(to) && active == e.active && {from} == e.exits
  }

  /** What a variation with entry e leaves behind when it ends with fin. */
  predicate Leaves(active: Option<nat>, exits: set<string>, fin: Fin, e: Entry) {
    match fin
    case AsBefore => active == e.active && exits == e.exits
    case RuleMoved(target) => e.ask == ForRules(target) && active == Some(target) && exits == e.exits
    case SwitchMoved(to) => e.ask == ForExit(to) && active == e.active && exits == {to}
    case SwitchStranded(to) => e.ask == ForExit(to) && active == e.active && exits == {to}
  }

  predicate Origin(active: Option<nat>, exits: set<string>, v: Holder, e: Entry) {
    match v
    case Some(RuleStart(_, target, _, _)) => e.ask == ForRules(target) && active == e.active && exits == e.exits
    case Some(SwitchStart(to, from, stage)) =>
      e.ask == ForExit(to) && active == e.active && (if stage.SReading? then exits == e.exits else {from} == e.exits)
    case Some(Driving(job, _, _)) => OfJob(active, exits, job, e)
    case Some(Finishing(job, _, _)) => OfJob(active, exits, job, e)
    case Some(Unprotecting(from, to, _, _)) => e.ask == ForExit(to) && active == e.active && {from} == e.exits
    case Some(Ending(_, fin)) => Leaves(active, exits, fin, e)
    case None => true
  }

  ghost predicate OriginAt(s: State, e: Entry) {
    Origin(s.d.active, s.d.exits.active, HolderOf(s), e)
  }

  lemma RuleStartKeepsOrigin(d: Data, v: Variation, c: Choice, e: Entry)
    requires v.RuleStart? && RuleStagesOk(d.versions, d.active, d.inflight, Some(v))
    requires Origin(d.active, d.exits.active, Some(v), e)
    ensures var (d', v') := RuleNext(d, v, c); Origin(d'.active, d'.exits.active, Some(v'), e)
  {
    hide TableOf, RulesOf;
  }

  lemma SwitchStartKeepsOrigin(d: Data, v: Variation, c: Choice, e: Entry)
    requires v.SwitchStart? && SwitchCan(d, v, c) && ExitStagesOk(d.exits, d.synced, Some(v))
    requires Origin(d.active, d.exits.active, Some(v), e)
    ensures var (d', v') := SwitchNext(d, v, c); Origin(d'.active, d'.exits.active, Some(v'), e)
  {
    hide TableOf, RulesOf, Protect;
  }

  lemma DrivingKeepsOrigin(drv: Driver, d: Data, job: Job, cfg: Config, stage: DriveStage, c: Choice,
                           e: Entry)
    requires DriveCan(drv, d, job, cfg, stage, c) && StageFits(job, stage)
    requires SwitchFacts(d.switchInflight, Some(Driving(job, cfg, stage)))
    requires Origin(d.active, d.exits.active, Some(Driving(job, cfg, stage)), e)
    ensures var (d', v') := DriveNext(d, job, cfg, stage, c); Origin(d'.active, d'.exits.active, Some(v'), e)
  {
    hide TableOf, RulesOf, Systemd.Lands, Systemd.Observed;
  }

  lemma FinishingKeepsOrigin(d: Data, job: Job, stage: FinishStage, obs: bool, c: Choice, e: Entry)
    requires FinishCan(d, job, stage) && FinishFits(job, stage)
    requires RuleStagesOk(d.versions, d.active, d.inflight, Some(Finishing(job, stage, obs)))
    requires Origin(d.active, d.exits.active, Some(Finishing(job, stage, obs)), e)
    ensures var (d', v') := FinishNext(d, job, stage, obs, c); Origin(d'.active, d'.exits.active, Some(v'), e)
  {
    hide UpdateRow, TableOf;
  }

  lemma NextKeepsOrigin(drv: Driver, d: Data, v: Variation, c: Choice, e: Entry)
    requires Can(drv, d, v, c) && Facts(drv, d, Some(v)) && Origin(d.active, d.exits.active, Some(v), e)
    ensures var (d', v') := Next(drv, d, v, c); Origin(d'.active, d'.exits.active, Some(v'), e)
  {
    hide RowFacts, HostFacts, SwitchFacts, Protect, TableOf, Unprotect, Origin, RuleNext, SwitchNext, DriveNext, FinishNext,
         SwitchCan, DriveCan, FinishCan, FinishFits, StageFits, RuleStagesOk, ExitStagesOk;
    match v {
      case Driving(job, cfg, stage) => DrivingKeepsOrigin(drv, d, job, cfg, stage, c, e);
      case Finishing(job, stage, obs) => FinishingKeepsOrigin(d, job, stage, obs, c, e);
      case Unprotecting(from, to, obs, fin) => UnprotectingKeepsOrigin(d, from, to, obs, fin, e);
      case RuleStart(_, _, _, _) => RuleStartKeepsOrigin(d, v, c, e);
      case SwitchStart(_, _, _) => SwitchStartKeepsOrigin(d, v, c, e);
      case _ =>
    }
  }

  lemma UnprotectingKeepsOrigin(d: Data, from: string, to: string, obs: bool, fin: Fin, e: Entry)
    requires Fits(Unprotecting(from, to, obs, fin))
    requires ExitStagesOk(d.exits, d.synced, Some(Unprotecting(from, to, obs, fin)))
    requires Origin(d.active, d.exits.active, Some(Unprotecting(from, to, obs, fin)), e)
    ensures Origin(d.active, d.exits.active, Some(Ending(obs, fin)), e)
  {
  }

  lemma MoveKeepsOrigin(active: Option<nat>, exits: set<string>, job: Job, cfg: Config, stage: DriveStage,
                        stage': DriveStage, e: Entry)
    requires Origin(active, exits, Some(Driving(job, cfg, stage)), e)
    ensures Origin(active, exits, Some(Driving(job, cfg, stage')), e)
  {
  }

  lemma StepKeepsOrigin(s: State, act: Action, e: Entry)
    requires Inv(s) && Enabled(s, act) && s.gate.Some? && Do(s, act).gate.Some? && OriginAt(s, e)
    ensures OriginAt(Do(s, act), e)
  {
    hide Facts, ApplyHeld, MuHeld, DeletesSafe, GateHeld, HolderOf, Can, Next, NeedsMu, Origin, Releases, Count;
    var s' := Do(s, act);
    StepKeepsInv(s, act);
    match act {
      case Vary(p, c) =>
        HolderIs(s, p);
        HolderIs(s', p);
        NextKeepsOrigin(s.drv, s.d, s.procs[p].v, c, e);
      case TryLock(p) =>
        HolderIs(s, p);
        HolderIs(s', p);
        var v := s.procs[p].v;
        MoveKeepsOrigin(s.d.active, s.d.exits.active, v.job, v.cfg, v.stage, s'.procs[p].v.stage, e);
      case Observe(p, q, host) =>
        HolderIs(s, p);
        HolderIs(s', q);
        var v := s.procs[p].v;
        MoveKeepsOrigin(s.d.active, s.d.exits.active, v.job, v.cfg, v.stage, s'.procs[q].v.stage, e);
      case AddExit(_) => SameProcs(s, s');
      case AddVersion(_, _) => SameProcs(s, s');
      case Remove(p, _) =>
        SameHolder(s, s', p, s'.procs[p]);
        DeleteAt(s, p);
        assert s.procs[p].id !in s.d.exits.active;
        assert s.d.exits.active - {s.procs[p].id} == s.d.exits.active;
      case BeginRule(p, _, _, _) => SameHolder(s, s', p, s'.procs[p]);
      case BeginSwitch(p, _) => SameHolder(s, s', p, s'.procs[p]);
      case End(_) =>
      case _ => SameHolder(s, s', act.p, s'.procs[act.p]);
    }
  }

  lemma SameProcs(s: State, s': State)
    requires s'.procs == s.procs && s'.gate == s.gate
    ensures HolderOf(s') == HolderOf(s)
  {
  }

  lemma CountsGrow(s: State, act: Action)
    requires Enabled(s, act)
    ensures s.begun <= Do(s, act).begun && s.ended <= Do(s, act).ended
  {
    hide Can, Next, NeedsMu, Releases, Count;
  }

  lemma {:induction false} RunCountsGrow(run: seq<State>, b: nat, i: nat)
    requires Run(run) && b <= i < |run|
    ensures run[b].begun <= run[i].begun && run[b].ended <= run[i].ended
    decreases i - b
  {
    hide Run, Enabled, Do;
    if b < i {
      RunCountsGrow(run, b, i - 1);
      var act := StepAt(run, i);
      CountsGrow(run[i - 1], act);
    }
  }

  // The gate has been held without a break from b to i.
  predicate SameVariation(run: seq<State>, b: nat, i: nat) {
    b <= i < |run| && run[b].gate.Some? && run[i].gate.Some? && run[i].ended == run[b].ended
  }

  lemma HeldThroughout(run: seq<State>, b: nat, i: nat)
    requires Run(run) && SameVariation(run, b, i) && b < i
    ensures SameVariation(run, b, i - 1)
  {
    hide Run, Facts, ApplyHeld, MuHeld, DeletesSafe, GateHeld;
    RunCountsGrow(run, b, i - 1);
    RunCountsGrow(run, i - 1, i);
    RunInv(run, b);
    RunInv(run, i - 1);
  }

  lemma {:induction false} OriginThroughout(run: seq<State>, b: nat, i: nat, e: Entry)
    requires Run(run) && SameVariation(run, b, i) && OriginAt(run[b], e)
    ensures OriginAt(run[i], e)
    decreases i - b
  {
    hide Run, OriginAt, Enabled, Do, Inv;
    if b < i {
      HeldThroughout(run, b, i);
      OriginThroughout(run, b, i - 1, e);
      RunInv(run, i - 1);
      var act := StepAt(run, i);
      StepKeepsOrigin(run[i - 1], act, e);
    }
  }

  predicate JustBegun(v: Variation) {
    (v.RuleStart? && v.rstage.RReading?) || (v.SwitchStart? && v.sstage.SReading?)
  }

  /** A rules apply that did not end confirmed leaves the active version and the published table as they were when
      it entered the gate, whatever else ran in between, and never touches the active exit. */
  lemma UnconfirmedApplyLeavesNoTrace(run: seq<State>, b: nat, i: nat, p: nat, q: nat)
    requires Run(run) && SameVariation(run, b, i)
    requires IsVarying(run[b], p) && JustBegun(run[b].procs[p].v)
    requires IsVarying(run[i], q) && run[i].procs[q].v.Finishing? && run[i].procs[q].v.fstage.RuleEnding?
    ensures run[i].d.exits.active == run[b].d.exits.active
    ensures !run[i].procs[q].v.fstage.st.Confirmed? ==>
              run[i].d.active == run[b].d.active
              && run[i].d.published == TableOf(run[i].d.versions, run[b].d.active)
  {
    hide Run, Facts, Inv, TableOf;
    var e := EntryOf(run[b], p);
    Inside(run, b, p);
    Inside(run, i, q);
    OriginBegun(run, b, p);
    OriginThroughout(run, b, i, e);
    RuleApplyOutcome(run, i, q);
    HolderIsInside(run, i, q);
  }

  lemma HolderIsInside(run: seq<State>, i: nat, p: nat)
    requires Run(run) && i < |run| && IsVarying(run[i], p)
    ensures HolderOf(run[i]) == Some(run[i].procs[p].v)
  {
    hide Run, Facts, ApplyHeld, MuHeld, DeletesSafe, GateHeld, HolderOf;
    RunInv(run, i);
    HolderIs(run[i], p);
  }

  function EntryOf(s: State, p: nat): Entry
    requires IsVarying(s, p) && JustBegun(s.procs[p].v)
  {
    var v := s.procs[p].v;
    Entry(if v.RuleStart? then ForRules(v.target) else ForExit(v.to), s.d.active, s.d.exits.active)
  }

  lemma OriginBegun(run: seq<State>, b: nat, p: nat)
    requires Run(run) && b < |run| && IsVarying(run[b], p) && JustBegun(run[b].procs[p].v)
    ensures OriginAt(run[b], EntryOf(run[b], p))
  {
    hide Run;
    HolderIsInside(run, b, p);
  }

  /** A switch that is not confirmed and could put the prior exit back, so any that is rolled back, leaves the exit
      active that was active when it entered the gate; no switch touches the active version. */
  lemma UnconfirmedSwitchLeavesNoTrace(run: seq<State>, b: nat, i: nat, p: nat, q: nat)
    requires Run(run) && SameVariation(run, b, i)
    requires IsVarying(run[b], p) && JustBegun(run[b].procs[p].v)
    requires IsVarying(run[i], q) && run[i].procs[q].v.Finishing? && run[i].procs[q].v.fstage.SwitchEnding?
    ensures run[i].d.active == run[b].d.active
    ensures run[i].procs[q].v.fstage.reverted ==> run[i].d.exits.active == run[b].d.exits.active
    ensures run[i].procs[q].v.fstage.st.RolledBack? ==> run[i].procs[q].v.fstage.reverted
  {
    hide Run, Facts, Inv, TableOf;
    var e := EntryOf(run[b], p);
    OriginBegun(run, b, p);
    OriginThroughout(run, b, i, e);
    SwitchOutcome(run, i, q);
    HolderIsInside(run, i, q);
  }

  /** When a variation is about to leave the gate, however far it had come and whatever else ran in between: its
      request is in force and nothing else has moved, or all is as it found it, or it is a switch whose own
      compensation failed. The published table is that of the version then active. */
  lemma EndOfVariation(run: seq<State>, b: nat, i: nat, p: nat, q: nat)
    requires Run(run) && SameVariation(run, b, i)
    requires IsVarying(run[b], p) && JustBegun(run[b].procs[p].v)
    requires IsVarying(run[i], q) && run[i].procs[q].v.Ending?
    ensures Leaves(run[i].d.active, run[i].d.exits.active, run[i].procs[q].v.fin, EntryOf(run[b], p))
    ensures run[i].d.published == TableOf(run[i].d.versions, run[i].d.active)
  {
    hide Run, Facts, Inv, TableOf, Leaves;
    OriginBegun(run, b, p);
    OriginThroughout(run, b, i, EntryOf(run[b], p));
    HolderIsInside(run, i, q);
    forall r | IsVarying(run[i], r) ensures r == q {
      OneVariationAtATime(run, i, q, r);
    }
    PublishedFollowsActive(run, i);
  }

  // ---------- building runs ----------

  ghost predicate Reached(first: State, s: State) {
    exists run :: Run(run) && run[0] == first && run[|run| - 1] == s
  }

  lemma Then(first: State, s: State, act: Action) returns (s': State)
    requires Reached(first, s) && Enabled(s, act)
    ensures s' == Do(s, act) && Reached(first, s')
  {
    hide Enabled, Do, Init;
    var run :| Run(run) && run[0] == first && run[|run| - 1] == s;
    s' := Do(s, act);
    var longer := run + [s'];
    forall i | 0 <= i < |longer| - 1 ensures Step(longer[i], longer[i + 1]) {
      if i < |run| - 1 {
        assert Step(run[i], run[i + 1]);
      } else {
        assert longer[i] == s && Enabled(longer[i], act);
      }
    }
    assert Run(longer) && longer[0] == first && longer[|longer| - 1] == s';
  }

  // One exit, one stored and empty rule version that is not active, nothing running.
  function Quiet(drv: Driver): State {
    var versions := map[1 := Version(7, Some([]))];
    var host := Systemd.InSync(Config(RulesOf(versions, None), {"a"}));
    State(drv, Data(versions, None, TableOf(versions, None), Exits({"a"}, {"a"}), [], map[], map[], map[], host, true),
          None, None, None, 0, 0, map[])
  }

  lemma QuietReached(drv: Driver)
    ensures Reached(Quiet(drv), Quiet(drv))
  {
    hide TableOf, RulesOf, Quiet;
    var run := [Quiet(drv)];
    QuietInit(drv);
    assert Run(run) && run[0] == Quiet(drv) && run[|run| - 1] == Quiet(drv);
  }

  lemma QuietInit(drv: Driver)
    ensures Init(Quiet(drv))
  {
    hide TableOf, RulesOf;
    assert Quiet(drv).d.exits.active == {"a"};
  }

  const GOES_WELL := Choice(true, false, 0, Systemd.Observing, Systemd.InSync(Config([], {"a"})), 0, "")

  // Goroutine 0 is the variation v, and nothing else runs.
  predicate Alone(drv: Driver, s: State, v: Variation) {
    s.drv == drv && s.mu.None? && s.gate == Some(0) && s.applyMu.None? && s.procs == map[0 := Varying(v)]
  }

  // ---------- a switch is stranded exactly by its own compensation ----------

  predicate Stranded(v: Holder) {
    match v
    case Some(Finishing(_, SwitchEnding(st, _, reverted), _)) => !st.Confirmed? && !reverted
    case Some(Unprotecting(_, _, _, fin)) => fin.SwitchStranded?
    case Some(Ending(_, fin)) => fin.SwitchStranded?
    case _ => false
  }

  predicate FaultAt(s: State, act: Action) {
    act.Vary? && IsVarying(s, act.p) && Compensates(s.procs[act.p].v) && !act.c.ok
  }

  lemma SwitchStrands(d: Data, v: Variation, c: Choice)
    requires v.SwitchStart? && ExitStagesOk(d.exits, d.synced, Some(v)) && !Has(d.exits, "")
    ensures Stranded(Some(SwitchNext(d, v, c).1)) <==> Compensates(v) && !c.ok
  {
    hide TableOf, RulesOf, Protect;
  }

  lemma FinishStrands(d: Data, job: Job, stage: FinishStage, obs: bool, c: Choice)
    requires FinishCan(d, job, stage) && FinishFits(job, stage)
    requires ExitFacts(d.exits, d.protected, d.synced, Some(Finishing(job, stage, obs)))
    ensures var v := Finishing(job, stage, obs);
            Stranded(Some(FinishNext(d, job, stage, obs, c).1)) <==> Stranded(Some(v)) || (Compensates(v) && !c.ok)
  {
    hide UpdateRow, ProtectedBy;
  }

  lemma DriveStrands(drv: Driver, d: Data, job: Job, cfg: Config, stage: DriveStage, c: Choice)
    requires DriveCan(drv, d, job, cfg, stage, c) && StageFits(job, stage)
    ensures !Stranded(Some(DriveNext(d, job, cfg, stage, c).1))
  {
    hide TableOf, RulesOf, Systemd.Lands, Systemd.Observed;
  }

  lemma NextStrands(drv: Driver, d: Data, v: Variation, c: Choice)
    requires Can(drv, d, v, c) && Facts(drv, d, Some(v))
    ensures Stranded(Some(Next(drv, d, v, c).1)) <==> Stranded(Some(v)) || (Compensates(v) && !c.ok)
  {
    hide RuleFacts, RowFacts, HostFacts, SwitchFacts, Protect, TableOf, RulesOf, Unprotect, SwitchNext, DriveNext, FinishNext,
         SwitchCan, DriveCan, FinishCan, FinishFits, StageFits, ExitStagesOk, ProtectedBy;
    match v {
      case Driving(job, cfg, stage) => DriveStrands(drv, d, job, cfg, stage, c);
      case Finishing(job, stage, obs) => FinishStrands(d, job, stage, obs, c);
      case SwitchStart(_, _, _) => SwitchStrands(d, v, c);
      case _ =>
    }
  }

  predicate OwnStep(act: Action) {
    act.Vary? || act.TryLock? || act.Observe?
  }

  // What a step of anyone does to the variation in hand.
  lemma StepOfHolder(s: State, act: Action)
    requires Inv(s) && Enabled(s, act) && s.gate.Some? && Do(s, act).gate.Some?
    ensures !OwnStep(act) ==> HolderOf(Do(s, act)) == HolderOf(s)
    ensures OwnStep(act) ==> IsVarying(s, act.p) && HolderOf(s) == Some(s.procs[act.p].v)
    ensures act.Vary? ==>
              var v := s.procs[act.p].v;
              Can(s.drv, s.d, v, act.c) && Facts(s.drv, s.d, Some(v))
              && HolderOf(Do(s, act)) == Some(Next(s.drv, s.d, v, act.c).1)
    ensures act.TryLock? ==>
              var v := s.procs[act.p].v;
              v.Driving? && v.stage.Dispatching?
              && HolderOf(Do(s, act)) == Some(v.(stage := if s.applyMu.Some? then Returned(Systemd.InFlight) else Working))
    ensures act.Observe? ==>
              var v := s.procs[act.p].v;
              v.Driving? && v.stage.Working?
              && HolderOf(Do(s, act)) == Some(v.(stage := Probing(s.d.host.disk, s.d.synced)))
  {
    hide Facts, ApplyHeld, MuHeld, DeletesSafe, GateHeld, HolderOf, Can, Next, NeedsMu, Releases, Count;
    var s' := Do(s, act);
    StepKeepsInv(s, act);
    match act {
      case Vary(p, c) =>
        HolderIs(s, p);
        HolderIs(s', p);
      case TryLock(p) =>
        HolderIs(s, p);
        HolderIs(s', p);
      case Observe(p, q, host) =>
        HolderIs(s, p);
        HolderIs(s', q);
      case AddExit(_) => SameProcs(s, s');
      case AddVersion(_, _) => SameProcs(s, s');
      case BeginRule(p, _, _, _) => SameHolder(s, s', p, s'.procs[p]);
      case BeginSwitch(p, _) => SameHolder(s, s', p, s'.procs[p]);
      case End(_) =>
      case _ => SameHolder(s, s', act.p, s'.procs[act.p]);
    }
  }

  lemma StepStrands(s: State, act: Action)
    requires Inv(s) && Enabled(s, act) && s.gate.Some? && Do(s, act).gate.Some?
    ensures Stranded(HolderOf(Do(s, act))) <==> Stranded(HolderOf(s)) || FaultAt(s, act)
  {
    StepOfHolder(s, act);
    hide Inv, Do, Facts, HolderOf, Can, Next, NeedsMu, Count;
    if act.Vary? {
      NextStrands(s.drv, s.d, s.procs[act.p].v, act.c);
    }
  }

  // Somewhere between b and i this variation's compensation met a store fault.
  ghost predicate CompensationFaulted(run: seq<State>, b: nat, i: nat) {
    exists j, act :: b <= j < i < |run| && Enabled(run[j], act) && run[j + 1] == Do(run[j], act) && FaultAt(run[j], act)
  }

  /** A switch ends with its target active but not confirmed exactly when its own compensation met a store fault;
      nothing else that fails, then or before, has that effect. */
  lemma {:induction false} StrandedExactlyByFault(run: seq<State>, b: nat, i: nat, p: nat)
    requires Run(run) && SameVariation(run, b, i)
    requires IsVarying(run[b], p) && JustBegun(run[b].procs[p].v)
    ensures Stranded(HolderOf(run[i])) <==> CompensationFaulted(run, b, i)
    decreases i - b
  {
    hide Run, Enabled, Do, Inv, Stranded, FaultAt, HolderOf;
    if b == i {
      BegunNotStranded(run, b, p);
    } else {
      HeldThroughout(run, b, i);
      StrandedExactlyByFault(run, b, i - 1, p);
      RunInv(run, i - 1);
      var act := StepAt(run, i);
      assert run[i - 1 + 1] == Do(run[i - 1], act);
      StepStrands(run[i - 1], act);
      if CompensationFaulted(run, b, i) {
        var j, a :| b <= j < i < |run| && Enabled(run[j], a) && run[j + 1] == Do(run[j], a) && FaultAt(run[j], a);
        if j == i - 1 {
          StepStrands(run[j], a);
        }
      }
    }
  }

  // A switch from exit a to exit b, as far as the move in the database.
  lemma ToMoved(drv: Driver) returns (s: State)
    ensures Reached(Quiet(drv), s) && Alone(drv, s, SwitchStart("b", "a", SMoved))
    ensures s.d.exits == Exits({"a", "b"}, {"b"})
  {
    hide TableOf, RulesOf, Reached;
    QuietReached(drv);
    s := Then(Quiet(drv), Quiet(drv), AddExit("b"));
    s := Then(Quiet(drv), s, BeginSwitch(0, "b"));
    s := Then(Quiet(drv), s, Vary(0, GOES_WELL.(exit := "a")));
    s := Then(Quiet(drv), s, Vary(0, GOES_WELL));
    s := Then(Quiet(drv), s, Vary(0, GOES_WELL));
    assert s.d.exits.present == {"a", "b"};
  }

  /** Under either driver a switch can end stranded: nothing assembles, and the prior exit cannot be put back. */
  lemma StrandedReached(drv: Driver) returns (s: State)
    ensures Reached(Quiet(drv), s) && IsVarying(s, 0)
    ensures s.procs[0].v == Ending(false, SwitchStranded("b")) && s.d.exits == Exits({"a", "b"}, {"b"})
  {
    hide TableOf, RulesOf, Reached, Quiet;
    s := ToMoved(drv);
    s := Then(Quiet(drv), s, Vary(0, GOES_WELL.(ok := false)));
    s := Then(Quiet(drv), s, Vary(0, GOES_WELL.(ok := false)));
    s := Then(Quiet(drv), s, Vary(0, GOES_WELL));
  }

  lemma BegunNotStranded(run: seq<State>, b: nat, p: nat)
    requires Run(run) && b < |run| && IsVarying(run[b], p) && JustBegun(run[b].procs[p].v)
    ensures !Stranded(HolderOf(run[b]))
  {
    hide Run;
    HolderIsInside(run, b, p);
  }

  // ---------- rows are final ----------

  lemma RowStays(s: State, act: Action, r: nat)
    requires Inv(s) && Enabled(s, act) && r < |s.d.rows| && s.d.rows[r].attempts == 1
    ensures r < |Do(s, act).d.rows| && Do(s, act).d.rows[r] == s.d.rows[r]
  {
    hide ApplyHeld, MuHeld, DeletesSafe, GateHeld, HolderOf, RuleFacts, SwitchFacts, ExitFacts, HostFacts, NeedsMu,
         Releases, Count, Next, Can;
    if act.Vary? {
      HolderIs(s, act.p);
      NextRow(s.drv, s.d, s.procs[act.p].v, act.c, r);
    }
  }

  lemma NextRow(drv: Driver, d: Data, v: Variation, c: Choice, r: nat)
    requires Can(drv, d, v, c) && RowFacts(d.rows, Some(v)) && r < |d.rows| && d.rows[r].attempts == 1
    ensures r < |Next(drv, d, v, c).0.rows| && Next(drv, d, v, c).0.rows[r] == d.rows[r]
  {
    hide TableOf, RulesOf, Protect, Unprotect, DriveNext, DriveCan, SwitchNext, SwitchCan, RuleNext, FinishNext, FinishCan;
    match v {
      case Driving(job, cfg, stage) => DriveRow(drv, d, job, cfg, stage, c);
      case SwitchStart(_, _, _) => SwitchRow(d, v, c);
      case RuleStart(_, _, _, _) => RuleRow(d, v, c);
      case Finishing(job, stage, obs) => FinishRow(d, job, stage, obs, c, r);
      case _ =>
    }
  }

  lemma RuleRow(d: Data, v: Variation, c: Choice)
    requires v.RuleStart?
    ensures d.rows <= RuleNext(d, v, c).0.rows
  {
    hide TableOf, RulesOf;
  }

  lemma FinishRow(d: Data, job: Job, stage: FinishStage, obs: bool, c: Choice, r: nat)
    requires FinishCan(d, job, stage) && RowFacts(d.rows, Some(Finishing(job, stage, obs)))
    requires r < |d.rows| && d.rows[r].attempts == 1
    ensures var rows := FinishNext(d, job, stage, obs, c).0.rows; r < |rows| && rows[r] == d.rows[r]
  {
  }

  lemma SwitchRow(d: Data, v: Variation, c: Choice)
    requires v.SwitchStart?
    ensures d.rows <= SwitchNext(d, v, c).0.rows
  {
    hide TableOf, RulesOf, Protect;
  }

  lemma DriveRow(drv: Driver, d: Data, job: Job, cfg: Config, stage: DriveStage, c: Choice)
    requires DriveCan(drv, d, job, cfg, stage, c)
    ensures DriveNext(d, job, cfg, stage, c).0.rows == d.rows
  {
    hide TableOf, RulesOf, Systemd.Lands, Systemd.Observed;
  }

  /** Once a row has had its terminal update nothing ever writes it again. */
  lemma {:induction false} RowsAreFinal(run: seq<State>, i: nat, j: nat, r: nat)
    requires Run(run) && i <= j < |run| && r < |run[i].d.rows| && run[i].d.rows[r].attempts == 1
    ensures r < |run[j].d.rows| && run[j].d.rows[r] == run[i].d.rows[r]
    decreases j - i
  {
    hide Run, Inv, Enabled, Do;
    if i < j {
      RowsAreFinal(run, i, j - 1, r);
      RunInv(run, j - 1);
      var act := StepAt(run, j);
      RowStays(run[j - 1], act, r);
    }
  }

  // ---------- progress, and the one way to lose it ----------

  predicate CutOff(s: State, p: nat) {
    IsVarying(s, p) && s.procs[p].v.Driving? && s.procs[p].v.stage.Aborted?
  }

  lemma CutOffStays(s: State, act: Action, p: nat)
    requires Inv(s) && Enabled(s, act) && CutOff(s, p)
    ensures CutOff(Do(s, act), p) && Do(s, act).begun == s.begun
  {
    hide ApplyHeld, MuHeld, DeletesSafe, GateHeld, HolderOf, Facts, NeedsMu, Releases, Count, Next;
    HolderIs(s, p);
    if act.Vary? || act.End? || act.TryLock? || act.Observe? {
      HolderIs(s, act.p);
    }
  }

  /** An observation that is cut off before its probe reaches no observer: its variation never leaves the gate, and
      no variation is ever admitted again. */
  lemma {:induction false} CutOffBlocksForever(run: seq<State>, i: nat, j: nat, p: nat)
    requires Run(run) && i <= j < |run| && CutOff(run[i], p)
    ensures CutOff(run[j], p) && run[j].gate == Some(p) && run[j].begun == run[i].begun
    decreases j - i
  {
    hide Run, Inv, Enabled, Do, CutOff, Facts;
    if i < j {
      CutOffBlocksForever(run, i, j - 1, p);
      RunInv(run, j - 1);
      var act := StepAt(run, j);
      CutOffStays(run[j - 1], act, p);
    }
    CutOffHolds(run, j, p);
  }

  /** Only an observation under a health check and with a delay can be cut off, and only by sleeping through the
      whole budget of its context: delay, timeout and thirty seconds. */
  lemma CutOffOnlyWhenLate(run: seq<State>, i: nat, p: nat)
    requires Run(run) && i < |run| && CutOff(run[i], p)
    ensures run[i].drv.SystemdDriver? && run[i].drv.health && run[i].drv.delay > 0
    ensures var late := run[i].procs[p].v.stage.late; late.Some? && late.value >= run[i].drv.delay + run[i].drv.timeout + 30000
  {
    hide Run, TableOf, SwitchFacts, ExitFacts, RuleFacts, RowFacts;
    Inside(run, i, p);
  }

  // A rules apply of version 1, as far as its assembled config.
  lemma ToAssembled(drv: Driver) returns (s: State, cfg: Config)
    ensures Reached(Quiet(drv), s) && Alone(drv, s, RuleStart(7, 1, 0, RAssembled(cfg)))
    ensures s.d == Quiet(drv).d
  {
    hide TableOf, RulesOf, Reached;
    QuietReached(drv);
    s := Then(Quiet(drv), Quiet(drv), BeginRule(0, 7, 1, 0));
    s := Then(Quiet(drv), s, Vary(0, GOES_WELL));
    s := Then(Quiet(drv), s, Vary(0, GOES_WELL));
    cfg := s.procs[0].v.rstage.cfg;
  }

  // The same apply as far as its registration.
  lemma ToDispatch(drv: Driver) returns (s: State, cfg: Config)
    ensures Reached(Quiet(drv), s) && Alone(drv, s, Driving(RuleJob(7, 0, 1, None), cfg, Dispatching))
  {
    hide TableOf, RulesOf, Reached;
    s, cfg := ToAssembled(drv);
    s := Then(Quiet(drv), s, Vary(0, GOES_WELL));
    s := Then(Quiet(drv), s, Vary(0, GOES_WELL));
    s := Then(Quiet(drv), s, Vary(0, GOES_WELL));
  }

  // The same apply as far as its observation by goroutine 1.
  lemma ToProbing(drv: Driver) returns (s: State, v: Variation)
    requires drv.SystemdDriver? && drv.health
    ensures Reached(Quiet(drv), s) && s.drv == drv && s.mu.None? && IsVarying(s, 1) && s.procs[1].v == v
    ensures v.Driving? && v.stage.Probing?
  {
    hide TableOf, RulesOf, Reached, Quiet;
    var cfg;
    s, cfg := ToDispatch(drv);
    s := Then(Quiet(drv), s, TryLock(0));
    s := Then(Quiet(drv), s, Observe(0, 1, Systemd.InSync(cfg)));
    v := s.procs[1].v;
  }

  /** Every driver with a health check and a delay has a run that is cut off, however late past the budget. */
  lemma CutOffReached(drv: Driver, late: nat) returns (s: State)
    requires drv.SystemdDriver? && drv.health && drv.delay > 0 && late >= drv.delay + drv.timeout + 30000
    ensures Reached(Quiet(drv), s) && s.drv == drv
    ensures CutOff(s, 1) && s.procs[1].v.stage.late == Some(late)
  {
    hide TableOf, RulesOf, Reached, Quiet;
    var v;
    s, v := ToProbing(drv);
    s := Then(Quiet(drv), s, Vary(1, GOES_WELL.(abort := true, woke := late)));
    s := Then(Quiet(drv), s, Vary(1, GOES_WELL));
  }

  lemma CutOffHolds(run: seq<State>, j: nat, p: nat)
    requires Run(run) && j < |run| && CutOff(run[j], p)
    ensures run[j].gate == Some(p)
  {
    hide Run, Facts;
    Inside(run, j, p);
  }

  // What the goroutine inside the gate can always do next, if it has not been cut off.
  function Onward(drv: Driver, d: Data, p: nat, v: Variation): Action {
    match v
    case Ending(_, _) => End(p)
    case Driving(_, cfg, stage) =>
      if stage.Dispatching? && drv.SystemdDriver? then TryLock(p)
      else if stage.Working? then Vary(p, Choice(false, false, 0, Systemd.Failed(Systemd.Snapshotting), d.host, 0, ""))
      else if stage.CommitRefused? && !stage.caller.InNoOp? then
        Vary(p, Choice(true, false, 0, Systemd.Confirmed, Systemd.Host(stage.caller.prev, stage.caller.prev), 0, ""))
      else
        var woke := if drv.SystemdDriver? && drv.delay > 0 then drv.delay else 0;
        Vary(p, Choice(true, false, woke, Systemd.Observing, d.host, 0, ""))
    case _ => Vary(p, Choice(false, false, 0, Systemd.Confirmed, d.host, 0, ""))
  }

  lemma OnwardDriving(drv: Driver, d: Data, p: nat, job: Job, cfg: Config, stage: DriveStage)
    requires StageFits(job, stage) && !stage.Aborted?
    requires HostFacts(drv, d.versions, d.active, d.exits.active, d.host, d.synced, Some(Driving(job, cfg, stage)))
    ensures var act := Onward(drv, d, p, Driving(job, cfg, stage));
            act.TryLock? || (act.Vary? && DriveCan(drv, d, job, cfg, stage, act.c))
  {
    hide TableOf, RulesOf, CfgOk, WantHost, PrevOk;
  }

  /** In every reachable state the variation in hand can take a step, unless it was cut off or a delete is holding
      a.mu, and then the delete can. */
  lemma SomebodyCanStep(run: seq<State>, i: nat, p: nat)
    requires Run(run) && i < |run| && IsVarying(run[i], p) && !CutOff(run[i], p)
    ensures exists act :: Enabled(run[i], act) && (act.LookUp? || act.Remove? || act == Onward(run[i].drv, run[i].d, p, run[i].procs[p].v))
  {
    var s := run[i];
    var v := s.procs[p].v;
    RunInv(run, i);
    Inside(run, i, p);
    hide Run, Inv, TableOf, RulesOf, RuleFacts, ExitFacts, SwitchFacts, HostFacts, RowFacts, DriveCan, StageFits, Count;
    if s.mu.Some? {
      DeleterAt(s);
      var q := s.mu.value;
      if s.procs[q].DeleteChecked? {
        assert Enabled(s, LookUp(q, true));
      } else {
        assert Enabled(s, Remove(q, true));
      }
    } else {
      if v.Driving? {
        OnwardDriving(s.drv, s.d, p, v.job, v.cfg, v.stage);
      } else if v.Finishing? {
        FinishCanAlways(s.d, v.job, v.fstage, v.obs);
      }
      assert Enabled(s, Onward(s.drv, s.d, p, v));
    }
  }

  lemma DeleterAt(s: State)
    requires Inv(s) && s.mu.Some?
    ensures s.mu.value in s.procs && Deleting(s.procs[s.mu.value])
  {
    hide Facts, GateHeld, ApplyHeld;
  }

  lemma FinishCanAlways(d: Data, job: Job, stage: FinishStage, obs: bool)
    requires FinishFits(job, stage)
    requires RuleFacts(d.versions, d.active, d.published, d.inflight, Some(Finishing(job, stage, obs)))
    requires RowFacts(d.rows, Some(Finishing(job, stage, obs)))
    ensures FinishCan(d, job, stage)
  {
    hide TableOf, RulesOf;
  }
}
