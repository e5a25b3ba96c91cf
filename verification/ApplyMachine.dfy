/** The apply pipeline as a state machine: rules applies, exit switches, deletes, adds and health observers
    interleaved at their critical sections, over either driver, with every I/O step free to fail. */
module ApplyMachine {
  import opened Text
  import opened Rules
  import opened Stores
  import opened Applier
  import Systemd

  type Host = Systemd.Host<Config>
  type Files = Systemd.Files<Config>
  type Result = Systemd.ApplyResult

  // Durations in milliseconds; the delay and the timeout are whatever the driver was configured with.
  datatype Driver = NoOp | SystemdDriver(health: bool, delay: int, timeout: int)

  // A variation whose in-flight entry is registered.
  datatype Job =
    | RuleJob(snap: nat, row: nat, target: nat, prior: Option<nat>)
    | SwitchJob(snap: nat, row: nat, to: string, from: string)

  datatype RuleStage = RReading | RPlanned | RAssembled(cfg: Config) | RReady(prior: Option<nat>, cfg: Config)
                     | RInserted(prior: Option<nat>, cfg: Config, row: nat)

  datatype SwitchStage = SReading | SRead | SProtected | SMoved | SAssembled(cfg: Config)
                       | SSnapped(cfg: Config, snap: nat) | SInserted(cfg: Config, snap: nat, row: nat) | SReverting

  // Who called the commit callback; prev is the snapshot of the files, and was says whether they were then known to
  // show the database.
  datatype Caller = InNoOp | InApply(prev: Files, was: bool) | InObserver(prev: Files, was: bool)

  datatype DriveStage =
    | Dispatching
    | Working
    | Committing(caller: Caller)
    | Activating(caller: Caller)
    | Publishing(caller: Caller)
    | CommitRefused(caller: Caller)
    | Probing(prev: Files, was: bool)
    | Aborting(late: Option<nat>)
    | Aborted(late: Option<nat>)  // nobody will finish this variation: the observation was cut off that late, or the
                                  // observer found no entry of it
    | Reporting(res: Result)    // OnHealth
    | Returned(res: Result)     // back in ApplyRules or SwitchExit

  datatype FinishStage =
    | Recommitting
    | Unpublishing
    | RuleEnding(st: RowState)
    | RuleClearing(st: RowState)
    | Compensating(st: RowState)
    | SwitchEnding(st: RowState, taken: bool, reverted: bool)
    | SwitchClearing

  // How a variation leaves the control plane.
  datatype Fin = AsBefore | RuleMoved(target: nat) | SwitchMoved(to: string) | SwitchStranded(to: string)

  // What the goroutine inside the gate is doing; obs marks the health observer, which still holds applyMu.
  datatype Variation =
    | RuleStart(snap: nat, target: nat, prev: nat, rstage: RuleStage)
    | SwitchStart(to: string, from: string, sstage: SwitchStage)
    | Driving(job: Job, cfg: Config, stage: DriveStage)
    | Finishing(job: Job, fstage: FinishStage, obs: bool)
    | Unprotecting(from: string, to: string, obs: bool, fin: Fin)
    | Ending(obs: bool, fin: Fin)

  datatype Proc =
    | Varying(v: Variation)
    | Lingering                   // a starter whose observer has taken over
    | Unlocking                   // an observer that has ended its variation
    | DeleteChecked(id: string)
    | DeleteLooked(id: string)
    | Over

  datatype Data = Data(
    versions: map<nat, Version>,
    active: Option<nat>,
    published: seq<Rule>,
    exits: Exits,
    rows: seq<StatusRow>,
    inflight: map<nat, RuleInfo>,
    switchInflight: map<nat, SwitchInfo>,
    protected: map<string, nat>,
    host: Host,
    synced: bool)                 // the host is known to show the database: set when a config lands, cleared when
                                  // putting the host or the database back fails

  // The locks carry their holder; the code's gate is the boolean gate.Some?.
  datatype State = State(
    drv: Driver,
    d: Data,
    mu: Option<nat>,
    gate: Option<nat>,
    applyMu: Option<nat>,
    begun: nat,
    ended: nat,
    procs: map<nat, Proc>)

  // How one I/O step turns out; woke is how long after its start an observation came out of its delay.
  datatype Choice = Choice(ok: bool, abort: bool, woke: nat, res: Result, host: Host, snap: nat, exit: string)

  predicate Parses(versions: map<nat, Version>, active: Option<nat>) {
    active.Some? ==> active.value in versions && versions[active.value].rules.Some?
  }

  // ---------- ApplyRules up to the driver ----------

  function RuleNext(d: Data, v: Variation, c: Choice): (Data, Variation)
    requires v.RuleStart?
  {
    match v.rstage
    case RReading =>
      if c.ok && v.target in d.versions && d.versions[v.target].snapshot == v.snap && d.versions[v.target].rules.Some?
      then (d, v.(rstage := RPlanned))
      else (d, Ending(false, AsBefore))
    case RPlanned =>
      if c.ok && Parses(d.versions, d.active)
      then (d, v.(rstage := RAssembled(Config(RulesOf(d.versions, Some(v.target)), d.exits.active))))
      else (d, Ending(false, AsBefore))
    case RAssembled(cfg) =>
      if c.ok && !Stale(v.prev, SnapshotOf(d.versions, d.active))
      then (d, v.(rstage := RReady(d.active, cfg)))
      else (d, Ending(false, AsBefore))
    case RReady(prior, cfg) =>
      if c.ok
      then (d.(rows := d.rows + [StatusRow(v.snap, Submitted, 0)]), v.(rstage := RInserted(prior, cfg, |d.rows|)))
      else (d, Ending(false, AsBefore))
    case RInserted(prior, cfg, row) =>
      (d.(inflight := d.inflight[v.snap := NewInfo(d.versions, row, v.target, prior)]),
       Driving(RuleJob(v.snap, row, v.target, prior), cfg, Dispatching))
  }

  // ---------- SwitchExit up to the driver ----------

  // compensateSwitch over the exit store; the flag says whether the prior exit is back.
  function Compensate(d: Data, from: string, ok: bool): (Data, bool) {
    var (exits, back) := Compensated(d.exits, from, ok);
    (d.(exits := exits, synced := d.synced && back), back)
  }

  predicate SwitchCan(d: Data, v: Variation, c: Choice)
    requires v.SwitchStart?
  {
    v.sstage.SReading? && c.ok ==> d.exits.active == if c.exit == "" then {} else {c.exit}
  }

  function SwitchNext(d: Data, v: Variation, c: Choice): (Data, Variation)
    requires v.SwitchStart?
  {
    match v.sstage
    case SReading => if c.ok then (d, SwitchStart(v.to, c.exit, SRead)) else (d, Ending(false, AsBefore))
    case SRead => (d.(protected := Protect(d.protected, [v.from, v.to])), v.(sstage := SProtected))
    case SProtected =>
      if c.ok && v.to in d.exits.present
      then (d.(exits := d.exits.(active := {v.to})), v.(sstage := SMoved))
      else (d, Unprotecting(v.from, v.to, false, AsBefore))
    case SMoved =>
      if c.ok && Parses(d.versions, d.active)
      then (d, v.(sstage := SAssembled(Config(RulesOf(d.versions, d.active), d.exits.active))))
      else (d, v.(sstage := SReverting))
    case SAssembled(cfg) => (d, v.(sstage := if c.ok then SSnapped(cfg, c.snap) else SReverting))
    case SSnapped(cfg, snap) =>
      if c.ok
      then (d.(rows := d.rows + [StatusRow(snap, Submitted, 0)]), v.(sstage := SInserted(cfg, snap, |d.rows|)))
      else (d, v.(sstage := SReverting))
    case SInserted(cfg, snap, row) =>
      (d.(switchInflight := d.switchInflight[snap := SwitchInfo(row, v.to, v.from)]),
       Driving(SwitchJob(snap, row, v.to, v.from), cfg, Dispatching))
    case SReverting =>
      var (d', back) := Compensate(d, v.from, c.ok);
      (d', Unprotecting(v.from, v.to, false, if back then AsBefore else SwitchStranded(v.to)))
  }

  // ---------- the driver ----------

  function Back(caller: Caller, res: Result): DriveStage {
    if caller.InObserver? then Reporting(res) else Returned(res)
  }

  function InfoOf(d: Data, job: Job): RuleInfo
    requires job.RuleJob?
  {
    if job.snap in d.inflight then d.inflight[job.snap] else RuleInfo(job.row, job.target, job.prior, [], [], false)
  }

  // The context of an observation ends this long after its start.
  function Budget(drv: Driver): int
    requires drv.SystemdDriver?
  {
    drv.delay + drv.timeout + Systemd.SLACK
  }

  // The outcomes the driver can report for its I/O, over the host it found.
  predicate DriveCan(drv: Driver, d: Data, job: Job, cfg: Config, stage: DriveStage, c: Choice) {
    match stage
    case Dispatching => drv.NoOp?
    case Working =>
      && drv.SystemdDriver?
      && Systemd.Lands(d.host, cfg, c.res, c.host)
      && match c.res {
           case RolledBack(s) => s.Rendering? || s.Reloading?
           case Failed(s) => s.Snapshotting? || s.Rendering? || s.Reloading?
           case Observing => !drv.health
           case _ => false
         }
    case Committing(_) => job.RuleJob?
    case Activating(_) => job.RuleJob?
    case Publishing(_) => job.RuleJob?
    case CommitRefused(caller) =>
      caller.InNoOp? || Systemd.Observed(caller.prev, cfg, Some(if c.ok then Systemd.RolledBack(Systemd.Commit)
                                                         else Systemd.Failed(Systemd.Commit)), c.host)
    case Probing(prev, _) =>
      && drv.SystemdDriver?
      && if c.abort then drv.delay > 0 && c.woke >= Budget(drv)
         else (drv.delay > 0 ==> c.woke >= drv.delay)
              && (c.res.Observing?
                  || ((c.res == Systemd.RolledBack(Systemd.Health) || c.res == Systemd.Failed(Systemd.Health))
                      && Systemd.Observed(prev, cfg, Some(c.res), c.host)))
    case Aborting(_) => true
    case Aborted(_) => false
    case Reporting(_) => true
    case Returned(_) => true
  }

  function CommitDone(job: Job, cfg: Config, caller: Caller): Variation {
    Driving(job, cfg, Back(caller, Systemd.Confirmed))
  }

  predicate CommitStage(stage: DriveStage) {
    stage.Committing? || stage.Activating? || stage.Publishing?
  }

  // commitRuleApply: the look at the entry, and its two writes.
  function CommitNext(d: Data, job: Job, cfg: Config, stage: DriveStage, c: Choice): (Data, Variation)
    requires job.RuleJob? && CommitStage(stage)
  {
    match stage
    case Committing(caller) =>
      if job.snap !in d.inflight then (d, Driving(job, cfg, CommitRefused(caller)))
      else if d.inflight[job.snap].committed then (d, CommitDone(job, cfg, caller))
      else (d, Driving(job, cfg, Activating(caller)))
    case Activating(caller) =>
      var info := InfoOf(d, job);
      if c.ok && info.target in d.versions
      then (d.(active := Some(info.target)), Driving(job, cfg, Publishing(caller)))
      else (d, Driving(job, cfg, CommitRefused(caller)))
    case Publishing(caller) =>
      var info := InfoOf(d, job);
      (d.(published := info.targetTable, inflight := d.inflight[job.snap := info.(committed := true)]),
       CommitDone(job, cfg, caller))
  }

  function DriveNext(d: Data, job: Job, cfg: Config, stage: DriveStage, c: Choice): (Data, Variation)
    requires exists drv :: DriveCan(drv, d, job, cfg, stage, c)
  {
    match stage
    case Dispatching =>      // NoOp
      (d, Driving(job, cfg, if job.RuleJob? then Committing(InNoOp) else Returned(Systemd.Confirmed)))
    case Working =>
      if c.res.Observing?
      then (d.(host := c.host, synced := true),
            Driving(job, cfg,
                    if job.RuleJob? then Committing(InApply(d.host.disk, d.synced)) else Returned(Systemd.Confirmed)))
      else (d.(host := c.host, synced := d.synced && !(c.res.Failed? && !c.res.stage.Snapshotting?)),
            Driving(job, cfg, Returned(c.res)))
    case Committing(_) => CommitNext(d, job, cfg, stage, c)
    case Activating(_) => CommitNext(d, job, cfg, stage, c)
    case Publishing(_) => CommitNext(d, job, cfg, stage, c)
    case CommitRefused(caller) =>
      if caller.InNoOp? then (d, Driving(job, cfg, Returned(Systemd.RolledBack(Systemd.Commit))))
      else (d.(host := c.host, synced := caller.was && c.ok),
            Driving(job, cfg, Back(caller, if c.ok then Systemd.RolledBack(Systemd.Commit)
                                        else Systemd.Failed(Systemd.Commit))))
    case Probing(prev, was) =>
      if c.abort then (d, Driving(job, cfg, Aborting(Some(c.woke))))
      else if c.res.Observing? then
        (d, Driving(job, cfg, if job.RuleJob? then Committing(InObserver(prev, was)) else Reporting(Systemd.Confirmed)))
      else (d.(host := c.host, synced := was && c.res.RolledBack?), Driving(job, cfg, Reporting(c.res)))
    case Aborting(late) => (d, Driving(job, cfg, Aborted(late)))
    case Aborted(late) => (d, Driving(job, cfg, Aborted(late)))
    case Reporting(res) =>
      if job.snap in d.switchInflight then
        var info := d.switchInflight[job.snap];
        SwitchOver(d.(switchInflight := d.switchInflight - {job.snap}),
                   SwitchJob(job.snap, info.row, info.to, info.from), TerminalState(res), true, true)
      else if job.snap in d.inflight then
        (d, RuleOver(job, TerminalState(res), true))
      else (d, Driving(job, cfg, Aborting(None)))
    case Returned(res) =>
      if job.RuleJob? then (d, if res.RolledBack? || res.InFlight? then Finishing(job, RuleEnding(RolledBack), false)
                               else RuleOver(job, TerminalState(res), false))
      else if TerminalState(res).Confirmed? then SwitchOver(d, job, Confirmed, false, false)
      else SwitchOver(d.(switchInflight := d.switchInflight - {job.snap}), job, TerminalState(res), true, false)
  }

  function RuleOver(job: Job, st: RowState, obs: bool): Variation {
    Finishing(job, if st.RolledBack? then Unpublishing else if st.Confirmed? then Recommitting else RuleEnding(st), obs)
  }

  function SwitchOver(d: Data, job: Job, st: RowState, taken: bool, obs: bool): (Data, Variation) {
    (d, Finishing(job, if st.Confirmed? then SwitchEnding(st, taken, false) else Compensating(st), obs))
  }

  // ---------- after the driver ----------

  // commitRuleApply a second time, and rollbackRuleApply, are stepped only where they return at once;
  // RecommitReturnsAtOnce and UnpublishReturnsAtOnce show that is everywhere.
  predicate FinishCan(d: Data, job: Job, stage: FinishStage) {
    match stage
    case Recommitting => job.snap in d.inflight && d.inflight[job.snap].committed
    case Unpublishing => job.snap !in d.inflight || !d.inflight[job.snap].committed
    case RuleEnding(_) => job.row < |d.rows|
    case RuleClearing(_) => job.RuleJob?
    case Compensating(_) => job.SwitchJob?
    case SwitchEnding(_, _, _) => job.SwitchJob? && job.row < |d.rows|
    case SwitchClearing => job.SwitchJob?
  }

  function SwitchFin(to: string, st: RowState, reverted: bool): Fin {
    if st.Confirmed? then SwitchMoved(to) else if reverted then AsBefore else SwitchStranded(to)
  }

  function FinishNext(d: Data, job: Job, stage: FinishStage, obs: bool, c: Choice): (Data, Variation)
    requires FinishCan(d, job, stage)
  {
    match stage
    case Recommitting => (d, Finishing(job, RuleEnding(Confirmed), obs))
    case Unpublishing => (d, Finishing(job, RuleEnding(RolledBack), obs))
    case RuleEnding(st) => (d.(rows := UpdateRow(d.rows, job.row, st, c.ok)), Finishing(job, RuleClearing(st), obs))
    case RuleClearing(st) =>
      (d.(inflight := d.inflight - {job.snap}), Ending(obs, if st.Confirmed? then RuleMoved(job.target) else AsBefore))
    case Compensating(st) =>
      var (d', back) := Compensate(d, job.from, c.ok);
      (d', Finishing(job, SwitchEnding(if back then st else Failed, true, back && job.from != ""), obs))
    case SwitchEnding(st, taken, reverted) =>
      (d.(rows := UpdateRow(d.rows, job.row, st, c.ok)),
       if taken then Unprotecting(job.from, job.to, obs, SwitchFin(job.to, st, reverted))
       else Finishing(job, SwitchClearing, obs))
    case SwitchClearing =>
      (d.(switchInflight := d.switchInflight - {job.snap}), Unprotecting(job.from, job.to, obs, SwitchMoved(job.to)))
  }

  // ---------- one step of a variation ----------

  predicate Can(drv: Driver, d: Data, v: Variation, c: Choice) {
    match v
    case RuleStart(_, _, _, _) => true
    case SwitchStart(_, _, _) => SwitchCan(d, v, c)
    case Driving(job, cfg, stage) => DriveCan(drv, d, job, cfg, stage, c)
    case Finishing(job, stage, _) => FinishCan(d, job, stage)
    case Unprotecting(_, _, _, _) => true
    case Ending(_, _) => false
  }

  function Next(drv: Driver, d: Data, v: Variation, c: Choice): (Data, Variation)
    requires Can(drv, d, v, c)
  {
    match v
    case RuleStart(_, _, _, _) => RuleNext(d, v, c)
    case SwitchStart(_, _, _) => SwitchNext(d, v, c)
    case Driving(job, cfg, stage) => DriveNext(d, job, cfg, stage, c)
    case Finishing(job, stage, obs) => FinishNext(d, job, stage, obs, c)
    case Unprotecting(from, to, obs, fin) => (d.(protected := Unprotect(d.protected, [from, to])), Ending(obs, fin))
    case Ending(_, _) => (d, v)
  }

  // Steps that take a.mu.
  predicate NeedsMu(v: Variation) {
    match v
    case RuleStart(_, _, _, stage) => stage.RInserted?
    case SwitchStart(_, _, stage) => stage.SRead? || stage.SInserted?
    case Driving(_, _, stage) => stage.Committing? || stage.Reporting? || stage.Returned?
    case Finishing(_, stage, _) =>
      stage.Recommitting? || stage.Unpublishing? || stage.RuleClearing? || stage.SwitchClearing?
    case Unprotecting(_, _, _, _) => true
    case Ending(_, _) => true
  }

  // Steps at the end of which Apply, or an observation that reaches no observer, releases applyMu.
  predicate Releases(drv: Driver, d: Data, v: Variation, c: Choice) {
    && v.Driving?
    && match v.stage {
         case Working => !c.res.Observing? || v.job.SwitchJob?
         case Committing(caller) =>
           caller.InApply? && v.job.snap in d.inflight && d.inflight[v.job.snap].committed
         case Publishing(caller) => caller.InApply?
         case CommitRefused(caller) => caller.InApply?
         case Aborting(_) => true
         case _ => false
       }
  }

  datatype Action =
    | BeginRule(p: nat, snap: nat, target: nat, prev: nat)
    | BeginSwitch(p: nat, to: string)
    | Vary(p: nat, c: Choice)
    | TryLock(p: nat)
    | Observe(p: nat, q: nat, host: Host)
    | End(p: nat)
    | Unlock(p: nat)
    | Linger(p: nat)
    | BeginDelete(p: nat, id: string)
    | LookUp(p: nat, ok: bool)
    | Remove(p: nat, ok: bool)
    | AddExit(id: string)
    | AddVersion(vid: nat, version: Version)

  predicate IsVarying(s: State, p: nat) {
    p in s.procs && s.procs[p].Varying?
  }

  predicate AtDispatch(s: State, p: nat) {
    IsVarying(s, p) && s.procs[p].v.Driving? && s.procs[p].v.stage.Dispatching? && s.drv.SystemdDriver?
  }

  predicate Enabled(s: State, a: Action) {
    match a
    case BeginRule(p, _, _, _) => p !in s.procs && s.mu.None?
    case BeginSwitch(p, to) => p !in s.procs && s.mu.None? && to != ""
    case Vary(p, c) => IsVarying(s, p) && Can(s.drv, s.d, s.procs[p].v, c) && (NeedsMu(s.procs[p].v) ==> s.mu.None?)
    case TryLock(p) => AtDispatch(s, p)
    case Observe(p, q, host) =>
      && IsVarying(s, p) && q !in s.procs && s.drv.SystemdDriver? && s.drv.health
      && s.procs[p].v.Driving? && s.procs[p].v.stage.Working?
      && Systemd.Lands(s.d.host, s.procs[p].v.cfg, Systemd.Observing, host)
    case End(p) => IsVarying(s, p) && s.procs[p].v.Ending? && s.mu.None?
    case Unlock(p) => p in s.procs && s.procs[p].Unlocking?
    case Linger(p) => p in s.procs && s.procs[p].Lingering?
    case BeginDelete(p, _) => p !in s.procs && s.mu.None?
    case LookUp(p, _) => p in s.procs && s.procs[p].DeleteChecked?
    case Remove(p, _) => p in s.procs && s.procs[p].DeleteLooked?
    case AddExit(id) => ValidExitId(id) && id !in s.d.exits.present
    case AddVersion(vid, _) => vid !in s.d.versions
  }

  function Become(s: State, p: nat, proc: Proc): State {
    s.(procs := s.procs[p := proc])
  }

  function Begin(s: State, p: nat, v: Variation): State {
    if s.gate.Some? then Become(s, p, Over)
    else Become(s.(gate := Some(p), begun := s.begun + 1), p, Varying(v))
  }

  function VaryStep(s: State, p: nat, c: Choice): State
    requires Enabled(s, Vary(p, c))
  {
    var v := s.procs[p].v;
    var (d', v') := Next(s.drv, s.d, v, c);
    Become(s.(d := d', applyMu := if Releases(s.drv, s.d, v, c) then None else s.applyMu), p, Varying(v'))
  }

  function Do(s: State, a: Action): State
    requires Enabled(s, a)
  {
    match a
    case BeginRule(p, snap, target, prev) => Begin(s, p, RuleStart(snap, target, prev, RReading))
    case BeginSwitch(p, to) => Begin(s, p, SwitchStart(to, "", SReading))
    case Vary(p, c) => VaryStep(s, p, c)
    case TryLock(p) =>
      var v := s.procs[p].v;
      if s.applyMu.Some? then Become(s, p, Varying(v.(stage := Returned(Systemd.InFlight))))
      else Become(s.(applyMu := Some(p)), p, Varying(v.(stage := Working)))
    case Observe(p, q, host) =>
      var v := s.procs[p].v;
      var s' := s.(d := s.d.(host := host, synced := true), gate := Some(q), applyMu := Some(q));
      Become(Become(s', q, Varying(v.(stage := Probing(s.d.host.disk, s.d.synced)))), p, Lingering)
    case End(p) =>
      Become(s.(gate := None, ended := s.ended + 1), p, if s.procs[p].v.obs then Unlocking else Over)
    case Unlock(p) => Become(s.(applyMu := None), p, Over)
    case Linger(p) => Become(s, p, Over)
    case BeginDelete(p, id) =>
      if Count(s.d.protected, id) > 0 then Become(s, p, Over) else Become(s.(mu := Some(p)), p, DeleteChecked(id))
    case LookUp(p, ok) =>
      var id := s.procs[p].id;
      if ok && id in s.d.exits.present && id !in s.d.exits.active then Become(s, p, DeleteLooked(id))
      else Become(s.(mu := None), p, Over)
    case Remove(p, ok) =>
      var id := s.procs[p].id;
      var exits := Exits(s.d.exits.present - {id}, s.d.exits.active - {id});
      Become(s.(mu := None, d := if ok then s.d.(exits := exits) else s.d), p, Over)
    case AddExit(id) => s.(d := s.d.(exits := s.d.exits.(present := s.d.exits.present + {id})))
    case AddVersion(vid, version) => s.(d := s.d.(versions := s.d.versions[vid := version]))
  }

  // One exit is active, the table of the active version is published, the host runs both.
  ghost predicate Init(s: State) {
    && s.mu.None? && s.gate.None? && s.applyMu.None? && s.begun == s.ended == 0 && s.procs == map[]
    && s.d.rows == [] && s.d.inflight == map[] && s.d.switchInflight == map[] && s.d.protected == map[]
    && s.d.synced
    && s.d.published == TableOf(s.d.versions, s.d.active)
    && (s.d.active.Some? ==> s.d.active.value in s.d.versions)
    && "" !in s.d.exits.present && s.d.exits.active <= s.d.exits.present
    && (exists id :: s.d.exits.active == {id})
    && (s.drv.SystemdDriver? ==>
          s.d.host == Systemd.InSync(Config(RulesOf(s.d.versions, s.d.active), s.d.exits.active)))
  }

  ghost predicate Step(s: State, s': State) {
    exists a :: Enabled(s, a) && s' == Do(s, a)
  }

  ghost predicate Run(run: seq<State>) {
    && run != [] && Init(run[0])
    && forall i :: 0 <= i < |run| - 1 ==> Step(run[i], run[i + 1])
  }
}
