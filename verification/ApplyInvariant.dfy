/** What every step of the apply pipeline keeps, stated for the one variation inside the gate. */
module ApplyInvariant {
  import opened Text
  import opened Rules
  import opened Stores
  import opened Applier
  import opened ApplyMachine
  import Systemd
  import RuleTable

  type Holder = Option<Variation>

  function HolderOf(s: State): Holder {
    if s.gate.Some? && s.gate.value in s.procs && s.procs[s.gate.value].Varying?
    then Some(s.procs[s.gate.value].v)
    else None
  }

  // ---------- rule versions, published table, in-flight rule applies ----------

  // The commit of this variation has happened.
  predicate IsCommitted(v: Variation) {
    match v
    case Driving(_, _, stage) =>
      (stage.Returned? && stage.res.Confirmed?) || (stage.Reporting? && stage.res.Confirmed?)
    case Finishing(_, stage, _) =>
      stage.Recommitting? || (stage.RuleEnding? && stage.st.Confirmed?) || (stage.RuleClearing? && stage.st.Confirmed?)
    case _ => false
  }

  predicate IsPublishing(v: Variation) {
    v.Driving? && v.job.RuleJob? && v.stage.Publishing?
  }

  predicate StageFits(job: Job, stage: DriveStage) {
    && (stage.Committing? || stage.Activating? || stage.Publishing? || stage.CommitRefused? ==> job.RuleJob?)
    && (stage.Returned? ==> !stage.res.Observing?)
    && (stage.Reporting? ==> stage.res.Confirmed? || stage.res.RolledBack? || stage.res.Failed?)
    && ((stage.Aborting? || stage.Aborted?) ==> stage.late.Some?)
  }

  predicate FinishFits(job: Job, stage: FinishStage) {
    match stage
    case Recommitting => job.RuleJob?
    case Unpublishing => job.RuleJob?
    case RuleEnding(st) => job.RuleJob? && !st.Submitted?
    case RuleClearing(st) => job.RuleJob? && !st.Submitted?
    case Compensating(st) => job.SwitchJob? && (st.RolledBack? || st.Failed?)
    case SwitchEnding(st, taken, reverted) =>
      && job.SwitchJob? && !st.Submitted?
      && (st.Confirmed? ==> !reverted) && (st.RolledBack? ==> reverted) && (taken || st.Confirmed?)
    case SwitchClearing => job.SwitchJob?
  }

  predicate Fits(v: Variation) {
    match v
    case Driving(job, _, stage) => StageFits(job, stage)
    case Finishing(job, stage, _) => FinishFits(job, stage)
    case Unprotecting(_, to, _, fin) => !fin.RuleMoved? && (fin.AsBefore? || fin.to == to)
    case _ => true
  }

  function Info(versions: map<nat, Version>, job: Job, committed: bool): RuleInfo
    requires job.RuleJob?
  {
    NewInfo(versions, job.row, job.target, job.prior).(committed := committed)
  }

  predicate Usable(versions: map<nat, Version>, target: nat) {
    target in versions && versions[target].rules.Some?
  }

  predicate Registered(versions: map<nat, Version>, active: Option<nat>, inflight: map<nat, RuleInfo>, job: Job, v: Variation) {
    if job.SwitchJob? then inflight == map[]
    else
      && Usable(versions, job.target)
      && (job.prior.Some? ==> job.prior.value in versions)
      && inflight == map[job.snap := Info(versions, job, IsCommitted(v))]
      && active == if IsCommitted(v) || IsPublishing(v) then Some(job.target) else job.prior
  }

  predicate RuleStagesOk(versions: map<nat, Version>, active: Option<nat>, inflight: map<nat, RuleInfo>, v: Holder) {
    match v
    case Some(RuleStart(_, target, _, stage)) =>
      && inflight == map[]
      && (!stage.RReading? ==> Usable(versions, target))
      && (stage.RReady? || stage.RInserted? ==> stage.prior == active)
    case Some(Driving(job, _, _)) => Registered(versions, active, inflight, job, v.value)
    case Some(Finishing(job, _, _)) => Registered(versions, active, inflight, job, v.value)
    case Some(Ending(_, fin)) => inflight == map[] && (fin.RuleMoved? ==> active == Some(fin.target))
    case _ => inflight == map[]
  }

  predicate RuleFacts(versions: map<nat, Version>, active: Option<nat>, published: seq<Rule>,
                      inflight: map<nat, RuleInfo>, v: Holder) {
    && (active.Some? ==> active.value in versions)
    && published == TableOf(versions, if v.Some? && IsPublishing(v.value) then v.value.job.prior else active)
    && RuleStagesOk(versions, active, inflight, v)
  }

  // ---------- in-flight switches ----------

  function SwitchEntry(job: Job): map<nat, SwitchInfo> {
    match job
    case SwitchJob(snap, row, to, from) => map[snap := SwitchInfo(row, to, from)]
    case RuleJob(_, _, _, _) => map[]
  }

  predicate SwitchFacts(switchInflight: map<nat, SwitchInfo>, v: Holder) {
    match v
    case Some(Driving(job, _, _)) => switchInflight == SwitchEntry(job)
    case Some(Finishing(job, stage, _)) =>
      switchInflight == if stage.Compensating? || (stage.SwitchEnding? && stage.taken) then map[] else SwitchEntry(job)
    case _ => switchInflight == map[]
  }

  // ---------- exits ----------

  function ProtectedBy(v: Holder): map<string, nat> {
    match v
    case Some(SwitchStart(to, from, stage)) =>
      if stage.SReading? || stage.SRead? then map[] else Protect(map[], [from, to])
    case Some(Driving(SwitchJob(_, _, to, from), _, _)) => Protect(map[], [from, to])
    case Some(Finishing(SwitchJob(_, _, to, from), _, _)) => Protect(map[], [from, to])
    case Some(Unprotecting(from, to, _, _)) => Protect(map[], [from, to])
    case _ => map[]
  }

  ghost predicate OneActive(exits: Exits) {
    exists id :: exits.active == {id}
  }

  // The exit this variation has made, or found, active.
  predicate ActiveIs(exits: Exits, id: string) {
    exits.active == {id}
  }

  predicate Has(exits: Exits, id: string) {
    id in exits.present
  }

  ghost predicate ExitStagesOk(exits: Exits, synced: bool, v: Holder) {
    match v
    case Some(SwitchStart(to, from, stage)) =>
      && to != ""
      && if stage.SReading? then OneActive(exits)
         else if stage.SRead? || stage.SProtected? then ActiveIs(exits, from)
         else ActiveIs(exits, to) && Has(exits, from)
    case Some(Driving(SwitchJob(_, _, to, from), _, _)) => ActiveIs(exits, to) && Has(exits, from)
    case Some(Finishing(SwitchJob(_, _, to, from), stage, _)) =>
      && Has(exits, from) && Has(exits, to)
      && ActiveIs(exits, if stage.SwitchEnding? && stage.reverted then from else to)
      && (stage.SwitchEnding? && !stage.reverted && !stage.st.Confirmed? ==> !synced)
    case Some(Unprotecting(from, to, _, fin)) => ActiveIs(exits, if fin.AsBefore? then from else to)
    case Some(Ending(_, fin)) =>
      OneActive(exits) && (fin.SwitchMoved? || fin.SwitchStranded? ==> ActiveIs(exits, fin.to))
    case _ => OneActive(exits)
  }

  ghost predicate ExitFacts(exits: Exits, protected: map<string, nat>, synced: bool, v: Holder) {
    && !Has(exits, "")
    && exits.active <= exits.present
    && protected == ProtectedBy(v)
    && ExitStagesOk(exits, synced, v)
  }

  // ---------- status rows ----------

  // The row this variation has inserted and not yet closed, with its snapshot.
  function OpenRow(v: Holder): Option<(nat, nat)> {
    match v
    case Some(RuleStart(snap, _, _, RInserted(_, _, row))) => Some((row, snap))
    case Some(SwitchStart(_, _, SInserted(_, snap, row))) => Some((row, snap))
    case Some(Driving(job, _, _)) => Some((job.row, job.snap))
    case Some(Finishing(job, stage, _)) =>
      if stage.RuleClearing? || stage.SwitchClearing? then None else Some((job.row, job.snap))
    case _ => None
  }

  predicate RowFacts(rows: seq<StatusRow>, v: Holder) {
    var open := OpenRow(v);
    && (open.Some? ==> open.value.0 < |rows| && rows[open.value.0] == StatusRow(open.value.1, Submitted, 0))
    && (forall i :: 0 <= i < |rows| && (open.Some? ==> i != open.value.0) ==> rows[i].attempts == 1)
  }

  // ---------- the host ----------

  predicate CfgOk(versions: map<nat, Version>, active: Option<nat>, exits: set<string>, v: Holder) {
    match v
    case Some(RuleStart(_, target, _, stage)) =>
      stage.RAssembled? || stage.RReady? || stage.RInserted? ==>
        stage.cfg == Config(RulesOf(versions, Some(target)), exits)
    case Some(SwitchStart(to, _, stage)) =>
      stage.SAssembled? || stage.SSnapped? || stage.SInserted? ==>
        stage.cfg == Config(RulesOf(versions, active), {to})
    case Some(Driving(RuleJob(_, _, target, _), cfg, _)) => cfg == Config(RulesOf(versions, Some(target)), exits)
    case Some(Driving(SwitchJob(_, _, to, _), cfg, _)) => cfg == Config(RulesOf(versions, active), {to})
    case _ => true
  }

  // What the host ran when this job was dispatched.
  function Before(versions: map<nat, Version>, active: Option<nat>, exits: set<string>, job: Job): Config {
    match job
    case RuleJob(_, _, _, prior) => Config(RulesOf(versions, prior), exits)
    case SwitchJob(_, _, _, from) => Config(RulesOf(versions, active), {from})
  }

  predicate OnSystemd(stage: DriveStage) {
    match stage
    case Committing(caller) => !caller.InNoOp?
    case Activating(caller) => !caller.InNoOp?
    case Publishing(caller) => !caller.InNoOp?
    case CommitRefused(caller) => !caller.InNoOp?
    case _ => true
  }

  predicate OnNoOp(v: Holder) {
    match v
    case Some(Driving(_, _, stage)) =>
      (match stage
       case Dispatching => true
       case Committing(caller) => caller.InNoOp?
       case Activating(caller) => caller.InNoOp?
       case Publishing(caller) => caller.InNoOp?
       case CommitRefused(caller) => caller.InNoOp?
       case Returned(_) => true
       case _ => false)
    case _ => true
  }

  // The snapshot a commit or an observation would go back to, if the files showed the database when it was taken.
  function Taken(stage: DriveStage): Option<Files> {
    match stage
    case Committing(caller) => TakenBy(caller)
    case Activating(caller) => TakenBy(caller)
    case Publishing(caller) => TakenBy(caller)
    case CommitRefused(caller) => TakenBy(caller)
    case Probing(prev, was) => if was then Some(prev) else None
    case _ => None
  }

  function TakenBy(caller: Caller): Option<Files> {
    if !caller.InNoOp? && caller.was then Some(caller.prev) else None
  }

  // The host already runs the request's config.
  predicate Landed(stage: DriveStage) {
    match stage
    case Dispatching => false
    case Working => false
    case Reporting(res) => res.Confirmed?
    case Returned(res) => res.Confirmed?
    case _ => true
  }

  function WantHost(versions: map<nat, Version>, active: Option<nat>, exits: set<string>, v: Holder): Config {
    match v
    case Some(SwitchStart(_, from, stage)) =>
      if stage.SReading? || stage.SRead? || stage.SProtected? then Config(RulesOf(versions, active), exits)
      else Config(RulesOf(versions, active), {from})
    case Some(Driving(job, cfg, stage)) => if Landed(stage) then cfg else Before(versions, active, exits, job)
    case Some(Finishing(SwitchJob(_, _, _, from), Compensating(_), _)) => Config(RulesOf(versions, active), {from})
    case _ => Config(RulesOf(versions, active), exits)
  }

  // The request's config has landed, and neither the host nor the database has been put back since.
  predicate Shown(v: Holder) {
    match v
    case Some(Driving(_, _, stage)) => Landed(stage)
    case Some(Finishing(_, stage, _)) =>
      (match stage
       case RuleEnding(st) => st.Confirmed?
       case RuleClearing(st) => st.Confirmed?
       case SwitchEnding(st, _, _) => st.Confirmed?
       case Unpublishing => false
       case Compensating(_) => false
       case _ => true)
    case Some(Unprotecting(_, _, _, fin)) => fin.SwitchMoved?
    case Some(Ending(_, fin)) => fin.RuleMoved? || fin.SwitchMoved?
    case _ => false
  }

  predicate PrevOk(versions: map<nat, Version>, active: Option<nat>, exits: set<string>, v: Holder) {
    match v
    case Some(Driving(job, _, stage)) =>
      && OnSystemd(stage)
      && (Taken(stage).Some? ==>
            Taken(stage).value == Systemd.AllRendered(Before(versions, active, exits, job)))
    case _ => true
  }

  // An observation goes on only under a driver with a health check, and is cut off only out of a delay it overslept.
  predicate LateOk(drv: Driver, v: Holder) {
    match v
    case Some(Driving(_, _, stage)) =>
      && (stage.Probing? || stage.Aborting? || stage.Aborted? ==> drv.SystemdDriver? && drv.health)
      && (stage.Aborting? || stage.Aborted? ==>
            stage.late.Some? && drv.delay > 0 && stage.late.value >= Budget(drv))
    case _ => true
  }

  predicate HostFacts(drv: Driver, versions: map<nat, Version>, active: Option<nat>, exits: set<string>, host: Host,
                      synced: bool, v: Holder) {
    && CfgOk(versions, active, exits, v)
    && (drv.NoOp? ==> OnNoOp(v))
    && (drv.SystemdDriver? ==>
          && PrevOk(versions, active, exits, v)
          && (Shown(v) ==> synced)
          && (synced ==> host == Systemd.InSync(WantHost(versions, active, exits, v))))
    && LateOk(drv, v)
  }

  ghost predicate Facts(drv: Driver, d: Data, v: Holder) {
    && (v.Some? ==> Fits(v.value))
    && RuleFacts(d.versions, d.active, d.published, d.inflight, v)
    && SwitchFacts(d.switchInflight, v)
    && ExitFacts(d.exits, d.protected, d.synced, v)
    && RowFacts(d.rows, v)
    && HostFacts(drv, d.versions, d.active, d.exits.active, d.host, d.synced, v)
  }

  // ---------- locks ----------

  predicate OwnsApply(proc: Proc) {
    match proc
    case Varying(Driving(_, _, stage)) =>
      (match stage
       case Dispatching => false
       case Working => true
       case Committing(caller) => !caller.InNoOp?
       case Activating(caller) => !caller.InNoOp?
       case Publishing(caller) => !caller.InNoOp?
       case CommitRefused(caller) => !caller.InNoOp?
       case Probing(_, _) => true
       case Aborting(_) => true
       case Aborted(_) => false
       case Reporting(_) => true
       case Returned(_) => false)
    case Varying(Finishing(_, _, obs)) => obs
    case Varying(Unprotecting(_, _, obs, _)) => obs
    case Varying(Ending(obs, _)) => obs
    case Unlocking => true
    case _ => false
  }

  predicate Deleting(proc: Proc) {
    proc.DeleteChecked? || proc.DeleteLooked?
  }

  ghost predicate GateHeld(gate: Option<nat>, procs: map<nat, Proc>) {
    && (gate.Some? ==> gate.value in procs && procs[gate.value].Varying?)
    && (forall p :: p in procs && procs[p].Varying? ==> gate == Some(p))
  }

  ghost predicate ApplyHeld(applyMu: Option<nat>, procs: map<nat, Proc>) {
    && (applyMu.Some? ==> applyMu.value in procs && OwnsApply(procs[applyMu.value]))
    && (forall p :: p in procs && OwnsApply(procs[p]) ==> applyMu == Some(p))
  }

  ghost predicate MuHeld(mu: Option<nat>, procs: map<nat, Proc>) {
    && (mu.Some? ==> mu.value in procs && Deleting(procs[mu.value]))
    && (forall p :: p in procs && Deleting(procs[p]) ==> mu == Some(p))
  }

  // A delete in progress has neither side of a switch in hand.
  ghost predicate DeletesSafe(exits: Exits, protected: map<string, nat>, procs: map<nat, Proc>) {
    forall p :: p in procs && Deleting(procs[p]) ==>
                  Count(protected, procs[p].id) == 0 && (procs[p].DeleteLooked? ==> procs[p].id !in exits.active)
  }

  ghost predicate Inv(s: State) {
    && GateHeld(s.gate, s.procs)
    && ApplyHeld(s.applyMu, s.procs)
    && MuHeld(s.mu, s.procs)
    && DeletesSafe(s.d.exits, s.d.protected, s.procs)
    && s.begun == s.ended + (if s.gate.Some? then 1 else 0)
    && Facts(s.drv, s.d, HolderOf(s))
  }

  // ---------- one step of the variation keeps each of its facts ----------

  // The five groups of facts about d' and v'.
  ghost predicate After(drv: Driver, next: (Data, Variation)) {
    Facts(drv, next.0, Some(next.1))
  }

  lemma RuleStartKeeps(drv: Driver, d: Data, v: Variation, c: Choice)
    requires v.RuleStart? && Facts(drv, d, Some(v))
    ensures After(drv, RuleNext(d, v, c))
  {
    hide TableOf, RulesOf;
  }

  predicate BeforeSwitch(stage: SwitchStage) {
    stage.SReading? || stage.SRead? || stage.SProtected?
  }

  lemma SwitchStartRules(d: Data, v: Variation, c: Choice)
    requires v.SwitchStart? && RuleFacts(d.versions, d.active, d.published, d.inflight, Some(v))
    ensures var (d', v') := SwitchNext(d, v, c);
            Fits(v') && RuleFacts(d'.versions, d'.active, d'.published, d'.inflight, Some(v'))
  {
    hide TableOf, RulesOf, Protect;
  }

  lemma RowsSame(rows: seq<StatusRow>, v: Holder, v': Holder)
    requires RowFacts(rows, v) && OpenRow(v') == OpenRow(v)
    ensures RowFacts(rows, v')
  {
  }

  lemma RowsOpened(rows: seq<StatusRow>, snap: nat, v: Holder, v': Holder)
    requires RowFacts(rows, v) && OpenRow(v).None? && OpenRow(v') == Some((|rows|, snap))
    ensures RowFacts(rows + [StatusRow(snap, Submitted, 0)], v')
  {
    hide OpenRow;
  }

  lemma RowsClosed(rows: seq<StatusRow>, st: RowState, ok: bool, v: Holder, v': Holder)
    requires RowFacts(rows, v) && OpenRow(v).Some? && OpenRow(v').None?
    ensures RowFacts(UpdateRow(rows, OpenRow(v).value.0, st, ok), v')
  {
    hide OpenRow;
  }

  lemma SwitchStartRows(d: Data, v: Variation, c: Choice)
    requires v.SwitchStart? && RowFacts(d.rows, Some(v))
    ensures var (d', v') := SwitchNext(d, v, c); RowFacts(d'.rows, Some(v'))
  {
    hide TableOf, RulesOf, Protect, RowFacts;
    var (d', v') := SwitchNext(d, v, c);
    if v.sstage.SSnapped? && c.ok {
      RowsOpened(d.rows, v.sstage.snap, Some(v), Some(v'));
    } else {
      RowsSame(d.rows, Some(v), Some(v'));
    }
  }

  lemma SwitchStartEntries(d: Data, v: Variation, c: Choice)
    requires v.SwitchStart? && SwitchFacts(d.switchInflight, Some(v))
    ensures var (d', v') := SwitchNext(d, v, c); SwitchFacts(d'.switchInflight, Some(v'))
  {
    hide TableOf, RulesOf, Protect;
  }

  lemma BeforeSwitchExits(d: Data, v: Variation, c: Choice)
    requires v.SwitchStart? && BeforeSwitch(v.sstage)
    requires ExitFacts(d.exits, d.protected, d.synced, Some(v)) && SwitchCan(d, v, c)
    ensures var (d', v') := SwitchNext(d, v, c); ExitFacts(d'.exits, d'.protected, d'.synced, Some(v'))
  {
    hide TableOf, RulesOf, Protect;
    if v.sstage.SReading? && c.ok {
      var id :| d.exits.active == {id};
      assert id in d.exits.active;
    }
  }

  lemma AfterSwitchExits(d: Data, v: Variation, c: Choice)
    requires v.SwitchStart? && !BeforeSwitch(v.sstage) && !v.sstage.SReverting?
    requires ExitFacts(d.exits, d.protected, d.synced, Some(v))
    ensures var (d', v') := SwitchNext(d, v, c); ExitFacts(d'.exits, d'.protected, d'.synced, Some(v'))
  {
    hide TableOf, RulesOf, Protect;
  }

  lemma RevertingExits(d: Data, v: Variation, c: Choice)
    requires v.SwitchStart? && v.sstage.SReverting? && ExitFacts(d.exits, d.protected, d.synced, Some(v))
    ensures var (d', v') := SwitchNext(d, v, c); ExitFacts(d'.exits, d'.protected, d'.synced, Some(v'))
  {
    hide TableOf, RulesOf, Protect;
  }

  lemma BeforeSwitchHost(drv: Driver, d: Data, v: Variation, c: Choice)
    requires v.SwitchStart? && BeforeSwitch(v.sstage) && SwitchCan(d, v, c)
    requires HostFacts(drv, d.versions, d.active, d.exits.active, d.host, d.synced, Some(v))
    requires ExitFacts(d.exits, d.protected, d.synced, Some(v))
    ensures var (d', v') := SwitchNext(d, v, c);
            HostFacts(drv, d'.versions, d'.active, d'.exits.active, d'.host, d'.synced, Some(v'))
  {
    hide TableOf, RulesOf, Protect, ProtectedBy;
  }

  lemma AfterSwitchHost(drv: Driver, d: Data, v: Variation, c: Choice)
    requires v.SwitchStart? && !BeforeSwitch(v.sstage) && SwitchCan(d, v, c)
    requires HostFacts(drv, d.versions, d.active, d.exits.active, d.host, d.synced, Some(v))
    requires ExitFacts(d.exits, d.protected, d.synced, Some(v))
    ensures var (d', v') := SwitchNext(d, v, c);
            HostFacts(drv, d'.versions, d'.active, d'.exits.active, d'.host, d'.synced, Some(v'))
  {
    hide TableOf, RulesOf, Protect, ProtectedBy;
  }

  lemma SwitchStartKeeps(drv: Driver, d: Data, v: Variation, c: Choice)
    requires v.SwitchStart? && Facts(drv, d, Some(v)) && SwitchCan(d, v, c)
    ensures After(drv, SwitchNext(d, v, c))
  {
    hide Fits, RuleFacts, SwitchFacts, ExitFacts, RowFacts, HostFacts, SwitchNext, SwitchCan;
    SwitchStartRules(d, v, c);
    SwitchStartRows(d, v, c);
    SwitchStartEntries(d, v, c);
    if BeforeSwitch(v.sstage) {
      BeforeSwitchExits(d, v, c);
      BeforeSwitchHost(drv, d, v, c);
    } else {
      if v.sstage.SReverting? {
        RevertingExits(d, v, c);
      } else {
        AfterSwitchExits(d, v, c);
      }
      AfterSwitchHost(drv, d, v, c);
    }
  }

  // ---------- the driver's steps ----------

  // Between two driver stages of one job nothing but the host and the rule versions moves.
  lemma SameJob(job: Job, cfg: Config, stage: DriveStage, stage': DriveStage, d: Data, synced: bool)
    requires SwitchFacts(d.switchInflight, Some(Driving(job, cfg, stage)))
    requires ExitFacts(d.exits, d.protected, d.synced, Some(Driving(job, cfg, stage)))
    requires RowFacts(d.rows, Some(Driving(job, cfg, stage)))
    ensures SwitchFacts(d.switchInflight, Some(Driving(job, cfg, stage')))
    ensures ExitFacts(d.exits, d.protected, synced, Some(Driving(job, cfg, stage')))
    ensures RowFacts(d.rows, Some(Driving(job, cfg, stage')))
  {
    hide Protect;
  }

  predicate HostStage(stage: DriveStage) {
    stage.Dispatching? || stage.Working? || stage.Probing? || stage.Aborting? || stage.CommitRefused?
  }

  lemma WorkingRules(drv: Driver, d: Data, job: Job, cfg: Config, stage: DriveStage, c: Choice)
    requires HostStage(stage) && !Restores(stage) && DriveCan(drv, d, job, cfg, stage, c) && StageFits(job, stage)
    requires RuleFacts(d.versions, d.active, d.published, d.inflight, Some(Driving(job, cfg, stage)))
    ensures var (d', v') := DriveNext(d, job, cfg, stage, c);
            && v'.Driving? && v'.job == job && v'.cfg == cfg && d' == d.(host := d'.host, synced := d'.synced)
            && Fits(v') && RuleFacts(d'.versions, d'.active, d'.published, d'.inflight, Some(v'))
  {
    hide TableOf, RulesOf, Systemd.Lands, Systemd.Observed, Usable;
  }

  lemma RestoringRules(drv: Driver, d: Data, job: Job, cfg: Config, stage: DriveStage, c: Choice)
    requires Restores(stage) && DriveCan(drv, d, job, cfg, stage, c) && StageFits(job, stage)
    requires RuleFacts(d.versions, d.active, d.published, d.inflight, Some(Driving(job, cfg, stage)))
    ensures var (d', v') := DriveNext(d, job, cfg, stage, c);
            && v'.Driving? && v'.job == job && v'.cfg == cfg && d' == d.(host := d'.host, synced := d'.synced)
            && Fits(v') && RuleFacts(d'.versions, d'.active, d'.published, d'.inflight, Some(v'))
  {
    hide TableOf, RulesOf, Systemd.Lands, Systemd.Observed, Usable;
  }

  lemma CommitStageRules(drv: Driver, d: Data, job: Job, cfg: Config, stage: DriveStage, c: Choice)
    requires CommitStage(stage) && DriveCan(drv, d, job, cfg, stage, c) && StageFits(job, stage)
    requires RuleFacts(d.versions, d.active, d.published, d.inflight, Some(Driving(job, cfg, stage)))
    ensures var (d', v') := DriveNext(d, job, cfg, stage, c);
            && v'.Driving? && v'.job == job && v'.cfg == cfg
            && d' == d.(active := d'.active, published := d'.published, inflight := d'.inflight)
            && Fits(v') && RuleFacts(d'.versions, d'.active, d'.published, d'.inflight, Some(v'))
  {
    hide TableOf, RulesOf;
  }

  /** The stages of a commit, with nothing in between, make what the applier's commitRuleApply makes. */
  lemma StagesMakeTheCommit(d: Data, job: Job, cfg: Config, caller: Caller, c: Choice)
    requires job.RuleJob?
    ensures var (d1, v1) := CommitNext(d, job, cfg, Committing(caller), c);
            if v1.stage != Activating(caller) then
              CommitMakes(job.snap, ActiveSet(d.active), d.published, d.inflight, v1 == CommitDone(job, cfg, caller),
                          ActiveSet(d1.active), d1.published, d1.inflight)
            else
              var (d2, v2) := CommitNext(d1, job, cfg, Activating(caller), c);
              if v2.stage != Publishing(caller) then
                CommitMakes(job.snap, ActiveSet(d.active), d.published, d.inflight, false,
                            ActiveSet(d2.active), d2.published, d2.inflight)
              else
                var (d3, v3) := CommitNext(d2, job, cfg, Publishing(caller), c);
                v3 == CommitDone(job, cfg, caller)
                && CommitMakes(job.snap, ActiveSet(d.active), d.published, d.inflight, true,
                               ActiveSet(d3.active), d3.published, d3.inflight)
  {
  }

  predicate Restores(stage: DriveStage) {
    stage.Probing? || stage.CommitRefused?
  }

  lemma WorkingHost(drv: Driver, d: Data, job: Job, cfg: Config, stage: DriveStage, c: Choice)
    requires HostStage(stage) && !Restores(stage) && DriveCan(drv, d, job, cfg, stage, c)
    requires HostFacts(drv, d.versions, d.active, d.exits.active, d.host, d.synced, Some(Driving(job, cfg, stage)))
    ensures var (d', v') := DriveNext(d, job, cfg, stage, c);
            HostFacts(drv, d'.versions, d'.active, d'.exits.active, d'.host, d'.synced, Some(v'))
  {
    hide TableOf, RulesOf, Systemd.AllRendered;
  }

  lemma RestoringHost(drv: Driver, d: Data, job: Job, cfg: Config, stage: DriveStage, c: Choice)
    requires Restores(stage) && DriveCan(drv, d, job, cfg, stage, c)
    requires HostFacts(drv, d.versions, d.active, d.exits.active, d.host, d.synced, Some(Driving(job, cfg, stage)))
    ensures var (d', v') := DriveNext(d, job, cfg, stage, c);
            HostFacts(drv, d'.versions, d'.active, d'.exits.active, d'.host, d'.synced, Some(v'))
  {
    hide TableOf, RulesOf, Systemd.AllRendered;
  }

  lemma CommitStageHost(drv: Driver, d: Data, job: Job, cfg: Config, stage: DriveStage, c: Choice)
    requires CommitStage(stage) && DriveCan(drv, d, job, cfg, stage, c) && StageFits(job, stage)
    requires RuleFacts(d.versions, d.active, d.published, d.inflight, Some(Driving(job, cfg, stage)))
    requires HostFacts(drv, d.versions, d.active, d.exits.active, d.host, d.synced, Some(Driving(job, cfg, stage)))
    ensures var (d', v') := DriveNext(d, job, cfg, stage, c);
            HostFacts(drv, d'.versions, d'.active, d'.exits.active, d'.host, d'.synced, Some(v'))
  {
    hide TableOf, RulesOf, Systemd.InSync, Systemd.AllRendered;
  }

  lemma InDriverKeeps(drv: Driver, d: Data, job: Job, cfg: Config, stage: DriveStage, c: Choice)
    requires HostStage(stage) || CommitStage(stage)
    requires DriveCan(drv, d, job, cfg, stage, c) && Facts(drv, d, Some(Driving(job, cfg, stage)))
    ensures After(drv, DriveNext(d, job, cfg, stage, c))
  {
    hide RuleFacts, SwitchFacts, ExitFacts, RowFacts, HostFacts, DriveNext, DriveCan, StageFits;
    var (d', v') := DriveNext(d, job, cfg, stage, c);
    if HostStage(stage) {
      if Restores(stage) {
        RestoringRules(drv, d, job, cfg, stage, c);
        RestoringHost(drv, d, job, cfg, stage, c);
      } else {
        WorkingRules(drv, d, job, cfg, stage, c);
        WorkingHost(drv, d, job, cfg, stage, c);
      }
    } else {
      CommitStageRules(drv, d, job, cfg, stage, c);
      CommitStageHost(drv, d, job, cfg, stage, c);
    }
    SameJob(job, cfg, stage, v'.stage, d, d'.synced);
  }

  // ---------- out of the driver ----------

  lemma ReturnedRules(drv: Driver, d: Data, job: Job, cfg: Config, res: Result, c: Choice)
    requires StageFits(job, Returned(res)) && DriveCan(drv, d, job, cfg, Returned(res), c)
    requires RuleFacts(d.versions, d.active, d.published, d.inflight, Some(Driving(job, cfg, Returned(res))))
    requires SwitchFacts(d.switchInflight, Some(Driving(job, cfg, Returned(res))))
    ensures var (d', v') := DriveNext(d, job, cfg, Returned(res), c);
            Fits(v') && RuleFacts(d'.versions, d'.active, d'.published, d'.inflight, Some(v'))
            && SwitchFacts(d'.switchInflight, Some(v'))
  {
    hide TableOf, RulesOf;
  }

  lemma ReturnedExits(drv: Driver, d: Data, job: Job, cfg: Config, res: Result, c: Choice)
    requires StageFits(job, Returned(res)) && DriveCan(drv, d, job, cfg, Returned(res), c)
    requires ExitFacts(d.exits, d.protected, d.synced, Some(Driving(job, cfg, Returned(res))))
    requires RowFacts(d.rows, Some(Driving(job, cfg, Returned(res))))
    ensures var (d', v') := DriveNext(d, job, cfg, Returned(res), c);
            ExitFacts(d'.exits, d'.protected, d'.synced, Some(v')) && RowFacts(d'.rows, Some(v'))
  {
    hide TableOf, RulesOf, Protect;
  }

  lemma ReturnedHost(drv: Driver, d: Data, job: Job, cfg: Config, res: Result, c: Choice)
    requires StageFits(job, Returned(res)) && DriveCan(drv, d, job, cfg, Returned(res), c)
    requires RuleFacts(d.versions, d.active, d.published, d.inflight, Some(Driving(job, cfg, Returned(res))))
    requires ExitFacts(d.exits, d.protected, d.synced, Some(Driving(job, cfg, Returned(res))))
    requires HostFacts(drv, d.versions, d.active, d.exits.active, d.host, d.synced, Some(Driving(job, cfg, Returned(res))))
    ensures var (d', v') := DriveNext(d, job, cfg, Returned(res), c);
            HostFacts(drv, d'.versions, d'.active, d'.exits.active, d'.host, d'.synced, Some(v'))
  {
    hide TableOf, RulesOf, Systemd.InSync, Systemd.AllRendered, ProtectedBy;
  }

  lemma ReportingRules(drv: Driver, d: Data, job: Job, cfg: Config, res: Result, c: Choice)
    requires StageFits(job, Reporting(res)) && DriveCan(drv, d, job, cfg, Reporting(res), c)
    requires RuleFacts(d.versions, d.active, d.published, d.inflight, Some(Driving(job, cfg, Reporting(res))))
    requires SwitchFacts(d.switchInflight, Some(Driving(job, cfg, Reporting(res))))
    ensures var (d', v') := DriveNext(d, job, cfg, Reporting(res), c);
            Fits(v') && RuleFacts(d'.versions, d'.active, d'.published, d'.inflight, Some(v'))
            && SwitchFacts(d'.switchInflight, Some(v'))
  {
    hide TableOf, RulesOf;
  }

  lemma ReportingExits(drv: Driver, d: Data, job: Job, cfg: Config, res: Result, c: Choice)
    requires StageFits(job, Reporting(res)) && DriveCan(drv, d, job, cfg, Reporting(res), c)
    requires SwitchFacts(d.switchInflight, Some(Driving(job, cfg, Reporting(res))))
    requires ExitFacts(d.exits, d.protected, d.synced, Some(Driving(job, cfg, Reporting(res))))
    requires RowFacts(d.rows, Some(Driving(job, cfg, Reporting(res))))
    ensures var (d', v') := DriveNext(d, job, cfg, Reporting(res), c);
            ExitFacts(d'.exits, d'.protected, d'.synced, Some(v')) && RowFacts(d'.rows, Some(v'))
  {
    hide TableOf, RulesOf, Protect;
  }

  lemma ReportingHost(drv: Driver, d: Data, job: Job, cfg: Config, res: Result, c: Choice)
    requires StageFits(job, Reporting(res)) && DriveCan(drv, d, job, cfg, Reporting(res), c)
    requires RuleFacts(d.versions, d.active, d.published, d.inflight, Some(Driving(job, cfg, Reporting(res))))
    requires SwitchFacts(d.switchInflight, Some(Driving(job, cfg, Reporting(res))))
    requires ExitFacts(d.exits, d.protected, d.synced, Some(Driving(job, cfg, Reporting(res))))
    requires HostFacts(drv, d.versions, d.active, d.exits.active, d.host, d.synced, Some(Driving(job, cfg, Reporting(res))))
    ensures var (d', v') := DriveNext(d, job, cfg, Reporting(res), c);
            HostFacts(drv, d'.versions, d'.active, d'.exits.active, d'.host, d'.synced, Some(v'))
  {
    hide TableOf, RulesOf, Systemd.InSync, Systemd.AllRendered, ProtectedBy;
  }

  lemma DrivingKeeps(drv: Driver, d: Data, job: Job, cfg: Config, stage: DriveStage, c: Choice)
    requires DriveCan(drv, d, job, cfg, stage, c) && Facts(drv, d, Some(Driving(job, cfg, stage)))
    ensures After(drv, DriveNext(d, job, cfg, stage, c))
  {
    hide RuleFacts, SwitchFacts, ExitFacts, RowFacts, HostFacts, DriveNext, StageFits;
    match stage {
      case Returned(res) =>
        ReturnedRules(drv, d, job, cfg, res, c);
        ReturnedExits(drv, d, job, cfg, res, c);
        ReturnedHost(drv, d, job, cfg, res, c);
      case Reporting(res) =>
        ReportingRules(drv, d, job, cfg, res, c);
        ReportingExits(drv, d, job, cfg, res, c);
        ReportingHost(drv, d, job, cfg, res, c);
      case _ =>
        InDriverKeeps(drv, d, job, cfg, stage, c);
    }
  }

  // ---------- after the driver ----------

  lemma FinishingRules(d: Data, job: Job, stage: FinishStage, obs: bool, c: Choice)
    requires FinishFits(job, stage) && FinishCan(d, job, stage)
    requires RuleFacts(d.versions, d.active, d.published, d.inflight, Some(Finishing(job, stage, obs)))
    requires SwitchFacts(d.switchInflight, Some(Finishing(job, stage, obs)))
    requires ExitFacts(d.exits, d.protected, d.synced, Some(Finishing(job, stage, obs)))
    ensures var (d', v') := FinishNext(d, job, stage, obs, c);
            Fits(v') && RuleFacts(d'.versions, d'.active, d'.published, d'.inflight, Some(v'))
            && SwitchFacts(d'.switchInflight, Some(v'))
  {
    hide TableOf, RulesOf, UpdateRow, ProtectedBy;
  }

  lemma FinishingExits(d: Data, job: Job, stage: FinishStage, obs: bool, c: Choice)
    requires FinishFits(job, stage) && FinishCan(d, job, stage)
    requires ExitFacts(d.exits, d.protected, d.synced, Some(Finishing(job, stage, obs)))
    ensures var (d', v') := FinishNext(d, job, stage, obs, c);
            ExitFacts(d'.exits, d'.protected, d'.synced, Some(v'))
  {
    hide Protect, UpdateRow;
  }

  lemma FinishingRows(d: Data, job: Job, stage: FinishStage, obs: bool, c: Choice)
    requires FinishFits(job, stage) && FinishCan(d, job, stage)
    requires RowFacts(d.rows, Some(Finishing(job, stage, obs)))
    ensures var (d', v') := FinishNext(d, job, stage, obs, c); RowFacts(d'.rows, Some(v'))
  {
    hide RowFacts, UpdateRow;
    var v := Some(Finishing(job, stage, obs));
    var v' := Some(FinishNext(d, job, stage, obs, c).1);
    if stage.RuleEnding? || stage.SwitchEnding? {
      RowsClosed(d.rows, stage.st, c.ok, v, v');
    } else {
      RowsSame(d.rows, v, v');
    }
  }

  lemma FinishingHost(drv: Driver, d: Data, job: Job, stage: FinishStage, obs: bool, c: Choice)
    requires FinishFits(job, stage) && FinishCan(d, job, stage)
    requires ExitFacts(d.exits, d.protected, d.synced, Some(Finishing(job, stage, obs)))
    requires HostFacts(drv, d.versions, d.active, d.exits.active, d.host, d.synced, Some(Finishing(job, stage, obs)))
    ensures var (d', v') := FinishNext(d, job, stage, obs, c);
            HostFacts(drv, d'.versions, d'.active, d'.exits.active, d'.host, d'.synced, Some(v'))
  {
    hide RulesOf, UpdateRow, ProtectedBy, Systemd.InSync;
  }

  lemma FinishingKeeps(drv: Driver, d: Data, job: Job, stage: FinishStage, obs: bool, c: Choice)
    requires FinishCan(d, job, stage) && Facts(drv, d, Some(Finishing(job, stage, obs)))
    ensures After(drv, FinishNext(d, job, stage, obs, c))
  {
    hide RuleFacts, SwitchFacts, ExitFacts, RowFacts, HostFacts, FinishNext, FinishFits, FinishCan;
    FinishingRules(d, job, stage, obs, c);
    FinishingExits(d, job, stage, obs, c);
    FinishingRows(d, job, stage, obs, c);
    FinishingHost(drv, d, job, stage, obs, c);
  }

  lemma UnprotectingKeeps(drv: Driver, d: Data, from: string, to: string, obs: bool, fin: Fin)
    requires Facts(drv, d, Some(Unprotecting(from, to, obs, fin)))
    ensures Facts(drv, d.(protected := Unprotect(d.protected, [from, to])), Some(Ending(obs, fin)))
  {
    UnprotectUndoesProtect(map[], [from, to]);
    hide Protect, Unprotect;
  }

  // ---------- any step of the variation ----------

  lemma NextKeeps(drv: Driver, d: Data, v: Variation, c: Choice)
    requires Can(drv, d, v, c) && Facts(drv, d, Some(v))
    ensures After(drv, Next(drv, d, v, c))
  {
    hide Facts, RuleNext, SwitchNext, DriveNext, FinishNext, SwitchCan, DriveCan, FinishCan;
    match v {
      case RuleStart(_, _, _, _) => RuleStartKeeps(drv, d, v, c);
      case SwitchStart(_, _, _) => SwitchStartKeeps(drv, d, v, c);
      case Driving(job, cfg, stage) => DrivingKeeps(drv, d, job, cfg, stage, c);
      case Finishing(job, stage, obs) => FinishingKeeps(drv, d, job, stage, obs, c);
      case Unprotecting(from, to, obs, fin) => UnprotectingKeeps(drv, d, from, to, obs, fin);
    }
  }

  // ---------- steps that move only the holder ----------

  lemma BeginKeeps(drv: Driver, d: Data, v: Variation)
    requires Facts(drv, d, None)
    requires (v.RuleStart? && v.rstage.RReading?) || (v.SwitchStart? && v.sstage.SReading? && v.to != "")
    ensures Facts(drv, d, Some(v))
  {
    hide TableOf, RulesOf, Protect;
  }

  lemma EndKeeps(drv: Driver, d: Data, obs: bool, fin: Fin)
    requires Facts(drv, d, Some(Ending(obs, fin)))
    ensures Facts(drv, d, None)
  {
    hide TableOf, RulesOf, Protect;
  }

  lemma TryLockKeeps(drv: Driver, d: Data, job: Job, cfg: Config, stage: DriveStage)
    requires Facts(drv, d, Some(Driving(job, cfg, Dispatching))) && drv.SystemdDriver?
    requires stage == Working || stage == Returned(Systemd.InFlight)
    ensures Facts(drv, d, Some(Driving(job, cfg, stage)))
  {
    hide TableOf, RulesOf, ExitFacts, RowFacts, SwitchFacts, Systemd.InSync;
    SameJob(job, cfg, Dispatching, stage, d, d.synced);
  }

  lemma ObserveKeeps(drv: Driver, d: Data, job: Job, cfg: Config, host: Host)
    requires Facts(drv, d, Some(Driving(job, cfg, Working))) && Systemd.Lands(d.host, cfg, Systemd.Observing, host)
    requires drv.SystemdDriver? && drv.health
    ensures Facts(drv, d.(host := host, synced := true), Some(Driving(job, cfg, Probing(d.host.disk, d.synced))))
  {
    hide TableOf, RulesOf, ExitFacts, RowFacts, SwitchFacts;
    SameJob(job, cfg, Working, Probing(d.host.disk, d.synced), d, true);
  }

  // ---------- steps of others ----------

  lemma AddExitKeeps(drv: Driver, d: Data, v: Holder, id: string)
    requires Facts(drv, d, v) && id != ""
    ensures Facts(drv, d.(exits := d.exits.(present := d.exits.present + {id})), v)
  {
    hide RuleFacts, SwitchFacts, RowFacts, HostFacts, Protect, Fits;
  }

  lemma RemoveKeeps(drv: Driver, d: Data, v: Holder, id: string)
    requires Facts(drv, d, v) && Count(d.protected, id) == 0 && id !in d.exits.active
    ensures Facts(drv, d.(exits := Exits(d.exits.present - {id}, d.exits.active - {id})), v)
  {
    hide RuleFacts, SwitchFacts, RowFacts, HostFacts, Protect, Fits;
    assert d.exits.active - {id} == d.exits.active;
    if id in Sides(v) && id != "" {
      SidesProtected(d.exits, d.protected, d.synced, v, id);
    }
  }

  // The sides of the switch in hand, if v has protected any.
  function Sides(v: Holder): set<string> {
    match v
    case Some(SwitchStart(to, from, stage)) => if stage.SReading? || stage.SRead? then {} else {to, from}
    case Some(Driving(SwitchJob(_, _, to, from), _, _)) => {to, from}
    case Some(Finishing(SwitchJob(_, _, to, from), _, _)) => {to, from}
    case Some(Unprotecting(from, to, _, _)) => {to, from}
    case _ => {}
  }

  lemma BothProtected(to: string, from: string, id: string)
    requires id != ""
    ensures Count(Protect(map[], [from, to]), id) > 0 <==> id in {to, from}
  {
    ProtectCounts(map[], [from, to], id);
  }

  // The sides, and nothing else, are protected.
  lemma SidesProtected(exits: Exits, protected: map<string, nat>, synced: bool, v: Holder, id: string)
    requires ExitFacts(exits, protected, synced, v) && id != ""
    ensures Count(protected, id) > 0 <==> id in Sides(v)
  {
    hide Protect, ExitStagesOk;
    match v {
      case Some(SwitchStart(to, from, _)) => BothProtected(to, from, id);
      case Some(Driving(SwitchJob(_, _, to, from), _, _)) => BothProtected(to, from, id);
      case Some(Finishing(SwitchJob(_, _, to, from), _, _)) => BothProtected(to, from, id);
      case Some(Unprotecting(from, to, _, _)) => BothProtected(to, from, id);
      case _ =>
    }
  }

  lemma TableStable(versions: map<nat, Version>, vid: nat, version: Version, active: Option<nat>)
    requires vid !in versions && (active.Some? ==> active.value in versions)
    ensures RulesOf(versions[vid := version], active) == RulesOf(versions, active)
    ensures TableOf(versions[vid := version], active) == TableOf(versions, active)
  {
    hide RuleTable.ScanOrder;
  }

  lemma AddVersionRules(versions: map<nat, Version>, active: Option<nat>, published: seq<Rule>,
                        inflight: map<nat, RuleInfo>, v: Holder, vid: nat, version: Version)
    requires RuleFacts(versions, active, published, inflight, v) && vid !in versions
    ensures RuleFacts(versions[vid := version], active, published, inflight, v)
  {
    hide TableOf, RulesOf;
    TableStable(versions, vid, version, active);
    match v {
      case Some(Driving(RuleJob(_, _, target, prior), _, _)) =>
        TableStable(versions, vid, version, Some(target));
        TableStable(versions, vid, version, prior);
      case Some(Finishing(RuleJob(_, _, target, prior), _, _)) =>
        TableStable(versions, vid, version, Some(target));
        TableStable(versions, vid, version, prior);
      case _ =>
    }
  }

  lemma AddVersionHost(drv: Driver, d: Data, v: Holder, vid: nat, version: Version)
    requires vid !in d.versions
    requires RuleFacts(d.versions, d.active, d.published, d.inflight, v)
    requires HostFacts(drv, d.versions, d.active, d.exits.active, d.host, d.synced, v)
    ensures HostFacts(drv, d.versions[vid := version], d.active, d.exits.active, d.host, d.synced, v)
  {
    hide TableOf, RulesOf, Systemd.InSync, Systemd.AllRendered;
    TableStable(d.versions, vid, version, d.active);
    match v {
      case Some(RuleStart(_, target, _, stage)) =>
        if !stage.RReading? {
          TableStable(d.versions, vid, version, Some(target));
        }
      case Some(Driving(RuleJob(_, _, target, prior), _, _)) =>
        TableStable(d.versions, vid, version, Some(target));
        TableStable(d.versions, vid, version, prior);
      case _ =>
    }
  }

  lemma AddVersionKeeps(drv: Driver, d: Data, v: Holder, vid: nat, version: Version)
    requires Facts(drv, d, v) && vid !in d.versions
    ensures Facts(drv, d.(versions := d.versions[vid := version]), v)
  {
    hide RuleFacts, SwitchFacts, ExitFacts, RowFacts, HostFacts, Fits;
    AddVersionRules(d.versions, d.active, d.published, d.inflight, v, vid, version);
    AddVersionHost(drv, d, v, vid, version);
  }

  // ---------- exits a delete may be looking at ----------

  lemma SwitchSparesDeletes(d: Data, v: Variation, c: Choice, id: string)
    requires v.SwitchStart? && SwitchCan(d, v, c)
    requires ExitFacts(d.exits, d.protected, d.synced, Some(v)) && Count(d.protected, id) == 0
    ensures id in SwitchNext(d, v, c).0.exits.active ==> id in d.exits.active
  {
    hide Protect, Unprotect, Count, TableOf, RulesOf;
    if id in Sides(Some(v)) && id != "" {
      SidesProtected(d.exits, d.protected, d.synced, Some(v), id);
    }
  }

  lemma FinishSparesDeletes(d: Data, job: Job, stage: FinishStage, obs: bool, c: Choice, id: string)
    requires FinishCan(d, job, stage)
    requires ExitFacts(d.exits, d.protected, d.synced, Some(Finishing(job, stage, obs))) && Count(d.protected, id) == 0
    ensures id in FinishNext(d, job, stage, obs, c).0.exits.active ==> id in d.exits.active
  {
    hide Protect, Unprotect, Count, TableOf, RulesOf, UpdateRow;
    if id in Sides(Some(Finishing(job, stage, obs))) && id != "" {
      SidesProtected(d.exits, d.protected, d.synced, Some(Finishing(job, stage, obs)), id);
    }
  }

  lemma NextSparesDeletes(drv: Driver, d: Data, v: Variation, c: Choice, id: string)
    requires Can(drv, d, v, c) && Facts(drv, d, Some(v)) && Count(d.protected, id) == 0
    ensures id in Next(drv, d, v, c).0.exits.active ==> id in d.exits.active
  {
    hide RuleFacts, SwitchFacts, RowFacts, HostFacts, ExitFacts, Protect, Unprotect, Count, TableOf, RulesOf, Fits,
         SwitchNext, FinishNext, SwitchCan, FinishCan;
    match v {
      case SwitchStart(_, _, _) => SwitchSparesDeletes(d, v, c, id);
      case Finishing(job, stage, obs) => FinishSparesDeletes(d, job, stage, obs, c, id);
      case _ =>
    }
  }

  lemma SwitchKeepsProtection(d: Data, v: Variation, c: Choice)
    requires v.SwitchStart? && !v.sstage.SRead?
    ensures SwitchNext(d, v, c).0.protected == d.protected
  {
    hide Protect, Unprotect, TableOf, RulesOf;
  }

  lemma NextKeepsProtection(drv: Driver, d: Data, v: Variation, c: Choice)
    requires Can(drv, d, v, c) && !NeedsMu(v)
    ensures Next(drv, d, v, c).0.protected == d.protected
  {
    hide Protect, Unprotect, TableOf, RulesOf, SwitchNext, SwitchCan;
    if v.SwitchStart? {
      SwitchKeepsProtection(d, v, c);
    }
  }

  // ---------- locks ----------

  lemma NextApplyMu(drv: Driver, d: Data, v: Variation, c: Choice)
    requires Can(drv, d, v, c) && Facts(drv, d, Some(v))
    ensures OwnsApply(Varying(Next(drv, d, v, c).1)) == (OwnsApply(Varying(v)) && !Releases(drv, d, v, c))
    ensures Releases(drv, d, v, c) ==> OwnsApply(Varying(v))
  {
    hide RuleFacts, SwitchFacts, ExitFacts, RowFacts, HostFacts, Protect, Unprotect, TableOf, RulesOf;
  }
}
