/** Why a variation ends as it does: confirmed exactly when nothing of its own turned it down, failed exactly when
    something of its own could not be put back, and rolled back otherwise. */
module ApplyAnswers {
  import opened Text
  import opened Stores
  import opened Applier
  import opened ApplyMachine
  import opened ApplyInvariant
  import opened ApplyRuns
  import opened ApplyTheorems
  import opened ApplyProgress
  import Systemd

  // ---------- what turns a variation down, and what breaks it ----------

  // The version in force, if there is one, can be read back.
  predicate Readable(d: Data) {
    match d.active
    case None => true
    case Some(a) => a in d.versions && d.versions[a].rules.Some?
  }

  // The caller named no snapshot, or none is in force, or the one in force is the caller's.
  predicate UpToDate(d: Data, prev: nat) {
    match d.active
    case None => true
    case Some(a) => prev == 0 || (a in d.versions ==> d.versions[a].snapshot == 0 || d.versions[a].snapshot == prev)
  }

  predicate Stored(d: Data, target: nat, snap: nat) {
    target in d.versions && d.versions[target].snapshot == snap && d.versions[target].rules.Some?
  }

  /** A step of its own after which the variation can no longer be confirmed. */
  predicate TurnsDown(d: Data, v: Variation, c: Choice) {
    match v
    case RuleStart(snap, target, prev, stage) =>
      (match stage
       case RReading => !c.ok || !Stored(d, target, snap)
       case RPlanned => !c.ok || !Readable(d)
       case RAssembled(_) => !c.ok || !UpToDate(d, prev)
       case RReady(_, _) => !c.ok
       case RInserted(_, _, _) => false)
    case SwitchStart(to, _, stage) =>
      (match stage
       case SReading => !c.ok
       case SRead => false
       case SProtected => !c.ok || to !in d.exits.present
       case SMoved => !c.ok || !Readable(d)
       case SAssembled(_) => !c.ok
       case SSnapped(_, _) => !c.ok
       case SInserted(_, _, _) => false
       case SReverting => false)
    case Driving(_, _, stage) =>
      (match stage
       case Working => !c.res.Observing?
       case Activating(_) => !c.ok
       case Probing(_, _) => c.abort || !c.res.Observing?
       case _ => false)
    case _ => false
  }

  /** A step of its own at which a way back fails, or the driver cannot even take its snapshot. */
  predicate Breaks(v: Variation, c: Choice) {
    match v
    case Driving(_, _, stage) =>
      (match stage
       case Working => c.res.Failed?
       case CommitRefused(caller) => !caller.InNoOp? && !c.ok
       case Probing(_, _) => !c.abort && c.res.Failed?
       case _ => false)
    case Finishing(_, stage, _) => stage.Compensating? && !c.ok
    case _ => false
  }

  // Nothing has turned it down.
  predicate OnCourse(v: Variation) {
    match v
    case RuleStart(_, _, _, _) => true
    case SwitchStart(_, _, stage) => !stage.SReverting?
    case Driving(_, _, stage) =>
      (match stage
       case CommitRefused(_) => false
       case Reporting(res) => res.Confirmed?
       case Returned(res) => res.Confirmed?
       case Aborting(_) => false
       case Aborted(_) => false
       case _ => true)
    case Finishing(_, stage, _) =>
      (match stage
       case Recommitting => true
       case SwitchClearing => true
       case RuleEnding(st) => st.Confirmed?
       case RuleClearing(st) => st.Confirmed?
       case SwitchEnding(st, _, _) => st.Confirmed?
       case _ => false)
    case Unprotecting(_, _, _, fin) => fin.RuleMoved? || fin.SwitchMoved?
    case Ending(_, fin) => fin.RuleMoved? || fin.SwitchMoved?
  }

  // Something could not be put back; not known any more once the row is closed.
  predicate Broken(v: Variation) {
    match v
    case Driving(_, _, stage) =>
      (match stage
       case Reporting(res) => res.Failed?
       case Returned(res) => res.Failed?
       case _ => false)
    case Finishing(_, stage, _) =>
      (match stage
       case RuleEnding(st) => st.Failed?
       case RuleClearing(st) => st.Failed?
       case Compensating(st) => st.Failed?
       case SwitchEnding(st, _, _) => st.Failed?
       case _ => false)
    case _ => false
  }

  predicate Leaving(v: Variation) {
    v.Unprotecting? || v.Ending?
  }

  // ---------- one step ----------

  lemma RuleStartAnswers(drv: Driver, d: Data, v: Variation, c: Choice)
    requires v.RuleStart? && Facts(drv, d, Some(v))
    ensures OnCourse(RuleNext(d, v, c).1) <==> !TurnsDown(d, v, c)
    ensures !Broken(RuleNext(d, v, c).1)
  {
    hide TableOf, RulesOf, SwitchFacts, ExitFacts, RowFacts, HostFacts;
  }

  lemma SwitchStartAnswers(drv: Driver, d: Data, v: Variation, c: Choice)
    requires v.SwitchStart? && Facts(drv, d, Some(v))
    ensures OnCourse(SwitchNext(d, v, c).1) <==> OnCourse(v) && !TurnsDown(d, v, c)
    ensures !Broken(SwitchNext(d, v, c).1)
  {
    hide TableOf, RulesOf, SwitchFacts, ExitFacts, RowFacts, HostFacts, Protect;
  }

  lemma DrivingAnswers(drv: Driver, d: Data, job: Job, cfg: Config, stage: DriveStage, c: Choice)
    requires DriveCan(drv, d, job, cfg, stage, c) && Facts(drv, d, Some(Driving(job, cfg, stage)))
    ensures var v, v' := Driving(job, cfg, stage), DriveNext(d, job, cfg, stage, c).1;
            (OnCourse(v') <==> OnCourse(v) && !TurnsDown(d, v, c)) && (Broken(v') <==> Broken(v) || Breaks(v, c))
  {
    hide TableOf, RulesOf, ExitFacts, RowFacts, HostFacts, Systemd.Lands, Systemd.Observed;
  }

  lemma FinishingAnswers(drv: Driver, d: Data, job: Job, stage: FinishStage, obs: bool, c: Choice)
    requires FinishCan(d, job, stage) && Facts(drv, d, Some(Finishing(job, stage, obs)))
    ensures var v, v' := Finishing(job, stage, obs), FinishNext(d, job, stage, obs, c).1;
            && (OnCourse(v') <==> OnCourse(v))
            && (Leaving(v') || (Broken(v') <==> Broken(v) || Breaks(v, c)))
  {
    hide TableOf, RulesOf, RuleFacts, SwitchFacts, RowFacts, HostFacts, UpdateRow, ProtectedBy;
  }

  /** Every step of every stage, on every data: it goes on exactly when the step is none of those written out in
      TurnsDown, and is broken exactly by those in Breaks. */
  lemma NextAnswers(drv: Driver, d: Data, v: Variation, c: Choice)
    requires Can(drv, d, v, c) && Facts(drv, d, Some(v))
    ensures OnCourse(Next(drv, d, v, c).1) <==> OnCourse(v) && !TurnsDown(d, v, c)
    ensures Leaving(v) ==> Leaving(Next(drv, d, v, c).1)
    ensures Leaving(Next(drv, d, v, c).1) || (Broken(Next(drv, d, v, c).1) <==> Broken(v) || Breaks(v, c))
  {
    hide Facts, RuleNext, SwitchNext, DriveNext, FinishNext, SwitchCan, DriveCan, FinishCan, Unprotect;
    match v {
      case RuleStart(_, _, _, _) => RuleStartAnswers(drv, d, v, c);
      case SwitchStart(_, _, _) => SwitchStartAnswers(drv, d, v, c);
      case Driving(job, cfg, stage) => DrivingAnswers(drv, d, job, cfg, stage, c);
      case Finishing(job, stage, obs) => FinishingAnswers(drv, d, job, stage, obs, c);
      case _ =>
    }
  }

  // ---------- over whole runs ----------

  // A busy driver turns a variation down too.
  predicate TurnsDownAt(s: State, act: Action) {
    || (act.TryLock? && s.applyMu.Some?)
    || (act.Vary? && IsVarying(s, act.p) && TurnsDown(s.d, s.procs[act.p].v, act.c))
  }

  predicate BreaksAt(s: State, act: Action) {
    act.Vary? && IsVarying(s, act.p) && Breaks(s.procs[act.p].v, act.c)
  }

  predicate GoesOn(s: State) {
    HolderOf(s).Some? && OnCourse(HolderOf(s).value)
  }

  predicate IsBroken(s: State) {
    HolderOf(s).Some? && Broken(HolderOf(s).value)
  }

  predicate IsLeaving(s: State) {
    HolderOf(s).Some? && Leaving(HolderOf(s).value)
  }

  lemma StepAnswers(s: State, act: Action)
    requires Inv(s) && Enabled(s, act) && s.gate.Some? && Do(s, act).gate.Some?
    ensures GoesOn(Do(s, act)) <==> GoesOn(s) && !TurnsDownAt(s, act)
    ensures IsLeaving(s) ==> IsLeaving(Do(s, act))
    ensures !IsLeaving(Do(s, act)) ==> (IsBroken(Do(s, act)) <==> IsBroken(s) || BreaksAt(s, act))
  {
    StepOfHolder(s, act);
    hide Inv, Do, Facts, HolderOf, Can, Next, NeedsMu, Count, TurnsDown, Breaks;
    if act.Vary? {
      NextAnswers(s.drv, s.d, s.procs[act.p].v, act.c);
    }
  }

  // Between b and i a step turned the variation down, or broke it.
  ghost predicate TurnedDown(run: seq<State>, b: nat, i: nat) {
    exists j, act :: b <= j < i < |run| && Enabled(run[j], act) && run[j + 1] == Do(run[j], act) && TurnsDownAt(run[j], act)
  }

  ghost predicate BrokeDown(run: seq<State>, b: nat, i: nat) {
    exists j, act :: b <= j < i < |run| && Enabled(run[j], act) && run[j + 1] == Do(run[j], act) && BreaksAt(run[j], act)
  }

  lemma BegunGoesOn(run: seq<State>, b: nat, p: nat)
    requires Run(run) && b < |run| && IsVarying(run[b], p) && JustBegun(run[b].procs[p].v)
    ensures GoesOn(run[b]) && !IsBroken(run[b])
  {
    hide Run;
    HolderIsInside(run, b, p);
  }

  /** However others step in between, a variation is still to be confirmed, or has been, exactly when no step since it
      began has turned it down. */
  lemma {:induction false} GoesOnUnlessTurnedDown(run: seq<State>, b: nat, i: nat, p: nat)
    requires Run(run) && SameVariation(run, b, i)
    requires IsVarying(run[b], p) && JustBegun(run[b].procs[p].v)
    ensures GoesOn(run[i]) <==> !TurnedDown(run, b, i)
    decreases i - b
  {
    hide Run, Enabled, Do, Inv, GoesOn, IsBroken, TurnsDownAt, BreaksAt, IsLeaving;
    if b == i {
      BegunGoesOn(run, b, p);
    } else {
      HeldThroughout(run, b, i);
      GoesOnUnlessTurnedDown(run, b, i - 1, p);
      RunInv(run, i - 1);
      var act := StepAt(run, i);
      assert run[i - 1 + 1] == Do(run[i - 1], act);
      StepAnswers(run[i - 1], act);
      if TurnedDown(run, b, i) {
        var j, a :| b <= j < i < |run| && Enabled(run[j], a) && run[j + 1] == Do(run[j], a) && TurnsDownAt(run[j], a);
        if j == i - 1 {
          StepAnswers(run[j], a);
        }
      }
    }
  }

  lemma {:induction false} BrokenExactlyByFault(run: seq<State>, b: nat, i: nat, p: nat)
    requires Run(run) && SameVariation(run, b, i) && !IsLeaving(run[i])
    requires IsVarying(run[b], p) && JustBegun(run[b].procs[p].v)
    ensures IsBroken(run[i]) <==> BrokeDown(run, b, i)
    decreases i - b
  {
    hide Run, Enabled, Do, Inv, GoesOn, IsBroken, TurnsDownAt, BreaksAt, IsLeaving;
    if b == i {
      BegunGoesOn(run, b, p);
    } else {
      HeldThroughout(run, b, i);
      RunInv(run, i - 1);
      var act := StepAt(run, i);
      assert run[i - 1 + 1] == Do(run[i - 1], act);
      StepAnswers(run[i - 1], act);
      BrokenExactlyByFault(run, b, i - 1, p);
      if BrokeDown(run, b, i) {
        var j, a :| b <= j < i < |run| && Enabled(run[j], a) && run[j + 1] == Do(run[j], a) && BreaksAt(run[j], a);
        if j == i - 1 {
          StepAnswers(run[j], a);
        }
      }
    }
  }

  // The state a variation is about to write into its row.
  function Recording(v: Variation): Option<RowState> {
    match v
    case Finishing(_, RuleEnding(st), _) => Some(st)
    case Finishing(_, SwitchEnding(st, _, _), _) => Some(st)
    case _ => None
  }

  /** The state recorded for a variation, in every run: confirmed exactly when none of its steps turned it down, failed
      exactly when one of its ways back, or the driver's snapshot, failed, and so rolled back when it was turned down and
      everything could be put back, whether by its own reads, by a busy driver, by the commit or by the health check. */
  lemma RecordedState(run: seq<State>, b: nat, i: nat, p: nat, q: nat)
    requires Run(run) && SameVariation(run, b, i)
    requires IsVarying(run[b], p) && JustBegun(run[b].procs[p].v)
    requires IsVarying(run[i], q) && Recording(run[i].procs[q].v).Some?
    ensures var st := Recording(run[i].procs[q].v).value;
            && (st.Confirmed? <==> !TurnedDown(run, b, i))
            && (st.Failed? <==> BrokeDown(run, b, i))
            && (st.RolledBack? <==> TurnedDown(run, b, i) && !BrokeDown(run, b, i))
  {
    hide Run, Inv, Facts, TurnedDown, BrokeDown;
    HolderIsInside(run, i, q);
    GoesOnUnlessTurnedDown(run, b, i, p);
    BrokenExactlyByFault(run, b, i, p);
    NotSubmitted(run, i, q);
  }

  lemma NotSubmitted(run: seq<State>, i: nat, q: nat)
    requires Run(run) && i < |run| && IsVarying(run[i], q) && Recording(run[i].procs[q].v).Some?
    ensures !Recording(run[i].procs[q].v).value.Submitted?
  {
    hide Run, RuleFacts, SwitchFacts, ExitFacts, RowFacts, HostFacts;
    Inside(run, i, q);
  }

  /** And at the release of the gate: its request is in force exactly when no step turned it down. */
  lemma InForceExactly(run: seq<State>, b: nat, i: nat, p: nat, q: nat)
    requires Run(run) && SameVariation(run, b, i)
    requires IsVarying(run[b], p) && JustBegun(run[b].procs[p].v)
    requires IsVarying(run[i], q) && run[i].procs[q].v.Ending?
    ensures ConfirmedEnd(run[i], q) <==> !TurnedDown(run, b, i)
  {
    hide Run, Inv, Facts, TurnedDown;
    HolderIsInside(run, i, q);
    GoesOnUnlessTurnedDown(run, b, i, p);
  }

  // ---------- and a good request can be confirmed ----------

  // Every condition on the stored data that is still to be met.
  predicate GoodRequest(d: Data, v: Variation) {
    match v
    case RuleStart(snap, target, prev, _) => Stored(d, target, snap) && Readable(d) && UpToDate(d, prev)
    case SwitchStart(to, _, _) => to in d.exits.present && Readable(d)
    case _ => true
  }

  // What it leaves behind when it is confirmed.
  function Wanted(v: Variation): Fin {
    match v
    case RuleStart(_, target, _, _) => RuleMoved(target)
    case SwitchStart(to, _, _) => SwitchMoved(to)
    case Driving(job, _, _) => if job.RuleJob? then RuleMoved(job.target) else SwitchMoved(job.to)
    case Finishing(job, _, _) => if job.RuleJob? then RuleMoved(job.target) else SwitchMoved(job.to)
    case Unprotecting(_, _, _, fin) => fin
    case Ending(_, fin) => fin
  }

  predicate Undispatched(v: Variation) {
    v.RuleStart? || v.SwitchStart? || (v.Driving? && v.stage.Dispatching?)
  }

  // applyMu is there for the driver, and goroutine q for the observer.
  predicate Room(s: State, v: Variation, q: nat) {
    && (Undispatched(v) ==> s.applyMu.None?)
    && (Undispatched(v) || (v.Driving? && v.stage.Working?) ==> q !in s.procs)
  }

  // The step at which nothing fails.
  function Forward(drv: Driver, d: Data, p: nat, q: nat, v: Variation, exit: string): Action {
    var woke := if drv.SystemdDriver? && drv.delay > 0 then drv.delay else 0;
    var host := if v.Driving? && v.stage.Working? then Systemd.InSync(v.cfg) else d.host;
    var well := Vary(p, Choice(true, false, woke, Systemd.Observing, host, 0, exit));
    if v.Driving? && drv.SystemdDriver? then
      if v.stage.Dispatching? then TryLock(p)
      else if v.stage.Working? && drv.health then Observe(p, q, host)
      else well
    else well
  }

  lemma ForwardDriving(drv: Driver, d: Data, p: nat, q: nat, job: Job, cfg: Config, stage: DriveStage, exit: string)
    requires Facts(drv, d, Some(Driving(job, cfg, stage))) && OnCourse(Driving(job, cfg, stage))
    ensures var act := Forward(drv, d, p, q, Driving(job, cfg, stage), exit);
            if act.Vary? then DriveCan(drv, d, job, cfg, stage, act.c) && !TurnsDown(d, Driving(job, cfg, stage), act.c)
            else if act.TryLock? then drv.SystemdDriver? && stage.Dispatching?
            else act.Observe? && drv.SystemdDriver? && drv.health && stage.Working?
                 && Systemd.Lands(d.host, cfg, Systemd.Observing, act.host)
  {
    hide TableOf, RulesOf, RuleFacts, SwitchFacts, ExitFacts, RowFacts, CfgOk, WantHost, PrevOk, Shown;
  }

  lemma NamedExit(exits: Exits, protected: map<string, nat>, synced: bool, v: Holder, exit: string)
    requires ExitFacts(exits, protected, synced, v) && exits.active == {exit}
    ensures exit != ""
  {
    hide ProtectedBy, ExitStagesOk;
    assert exit in exits.active;
  }

  // Nothing on the way to the end stops it.
  lemma ForwardCan(drv: Driver, d: Data, p: nat, q: nat, v: Variation, exit: string)
    requires Facts(drv, d, Some(v)) && OnCourse(v) && GoodRequest(d, v) && !v.Ending? && d.exits.active == {exit}
    ensures var act := Forward(drv, d, p, q, v, exit); act.Vary? ==> Can(drv, d, v, act.c) && !TurnsDown(d, v, act.c)
  {
    hide TableOf, RulesOf, SwitchFacts, ExitFacts, HostFacts, DriveCan;
    match v {
      case Driving(job, cfg, stage) => ForwardDriving(drv, d, p, q, job, cfg, stage, exit);
      case Finishing(job, stage, obs) => FinishCanAlways(d, job, stage, obs);
      case SwitchStart(_, _, _) => NamedExit(d.exits, d.protected, d.synced, Some(v), exit);
      case _ =>
    }
  }

  predicate BeforeProbe(v: Variation) {
    Undispatched(v) || (v.Driving? && v.stage.Working?)
  }

  lemma DrivingKeepsRequest(drv: Driver, d: Data, job: Job, cfg: Config, stage: DriveStage, c: Choice)
    requires DriveCan(drv, d, job, cfg, stage, c) && Facts(drv, d, Some(Driving(job, cfg, stage)))
    requires !TurnsDown(d, Driving(job, cfg, stage), c) && OnCourse(Driving(job, cfg, stage))
    ensures var v' := DriveNext(d, job, cfg, stage, c).1;
            !Undispatched(v') && !BeforeProbe(v') && Wanted(v') == Wanted(Driving(job, cfg, stage))
    ensures GoodRequest(DriveNext(d, job, cfg, stage, c).0, DriveNext(d, job, cfg, stage, c).1)
  {
    hide TableOf, RulesOf, RuleFacts, ExitFacts, RowFacts, HostFacts, Systemd.Lands, Systemd.Observed;
  }

  lemma FinishingKeepsRequest(drv: Driver, d: Data, job: Job, stage: FinishStage, obs: bool, c: Choice)
    requires FinishCan(d, job, stage) && Facts(drv, d, Some(Finishing(job, stage, obs)))
    requires OnCourse(Finishing(job, stage, obs))
    ensures var v' := FinishNext(d, job, stage, obs, c).1;
            !BeforeProbe(v') && Wanted(v') == Wanted(Finishing(job, stage, obs))
    ensures GoodRequest(FinishNext(d, job, stage, obs, c).0, FinishNext(d, job, stage, obs, c).1)
  {
    hide TableOf, RulesOf, RuleFacts, SwitchFacts, ExitFacts, RowFacts, HostFacts, UpdateRow;
  }

  lemma StartKeepsRequest(d: Data, v: Variation, c: Choice)
    requires (v.RuleStart? || v.SwitchStart?) && OnCourse(v) && GoodRequest(d, v) && !TurnsDown(d, v, c)
    ensures var (d', v') := if v.RuleStart? then RuleNext(d, v, c) else SwitchNext(d, v, c);
            GoodRequest(d', v') && Wanted(v') == Wanted(v)
  {
    hide TableOf, RulesOf, Protect;
  }

  lemma NextKeepsRequest(drv: Driver, d: Data, v: Variation, c: Choice)
    requires Can(drv, d, v, c) && Facts(drv, d, Some(v)) && OnCourse(v) && GoodRequest(d, v) && !TurnsDown(d, v, c)
    ensures GoodRequest(Next(drv, d, v, c).0, Next(drv, d, v, c).1) && Wanted(Next(drv, d, v, c).1) == Wanted(v)
    ensures BeforeProbe(Next(drv, d, v, c).1) ==> BeforeProbe(v)
    ensures Undispatched(Next(drv, d, v, c).1) ==> Undispatched(v)
  {
    hide Facts, RuleNext, SwitchNext, DriveNext, FinishNext, SwitchCan, DriveCan, FinishCan, Unprotect, TurnsDown, OnCourse;
    match v {
      case Driving(job, cfg, stage) => DrivingKeepsRequest(drv, d, job, cfg, stage, c);
      case Finishing(job, stage, obs) => FinishingKeepsRequest(drv, d, job, stage, obs, c);
      case RuleStart(_, _, _, _) => StartKeepsRequest(d, v, c);
      case SwitchStart(_, _, _) => StartKeepsRequest(d, v, c);
      case _ =>
    }
  }

  // v at p is on its way to be confirmed.
  ghost predicate OnItsWay(s: State, p: nat, q: nat, v: Variation) {
    && Inv(s) && s.mu.None? && IsVarying(s, p) && s.procs[p].v == v
    && OnCourse(v) && GoodRequest(s.d, v) && Room(s, v, q)
  }

  lemma VaryOnItsWay(s: State, p: nat, q: nat, v: Variation, c: Choice)
    requires OnItsWay(s, p, q, v) && Enabled(s, Vary(p, c)) && !TurnsDown(s.d, v, c)
    ensures var s', v' := Do(s, Vary(p, c)), Next(s.drv, s.d, v, c).1;
            OnItsWay(s', p, q, v') && Rank(v') < Rank(v) && Wanted(v') == Wanted(v)
  {
    HolderIs(s, p);
    hide Facts, ApplyHeld, MuHeld, DeletesSafe, GateHeld, HolderOf, Can, Next, NeedsMu, Releases, TurnsDown;
    StepKeepsInv(s, Vary(p, c));
    hide Inv, Rank;
    NextLowers(s.drv, s.d, v, c);
    NextAnswers(s.drv, s.d, v, c);
    NextKeepsRequest(s.drv, s.d, v, c);
  }

  lemma DriverOnItsWay(s: State, p: nat, q: nat, v: Variation, act: Action) returns (r: nat, v': Variation)
    requires OnItsWay(s, p, q, v) && Enabled(s, act)
    requires act == TryLock(p) || (act.Observe? && act.p == p && act.q == q)
    ensures (r == p || r == q) && OnItsWay(Do(s, act), r, q, v') && Rank(v') < Rank(v) && Wanted(v') == Wanted(v)
  {
    hide Facts, ApplyHeld, MuHeld, DeletesSafe, GateHeld, HolderOf;
    StepKeepsInv(s, act);
    hide Inv;
    r := if act.Observe? then q else p;
    v' := Do(s, act).procs[r].v;
  }

  lemma ForwardStep(s: State, p: nat, q: nat, v: Variation) returns (act: Action, r: nat, v': Variation)
    requires OnItsWay(s, p, q, v) && !v.Ending?
    ensures Enabled(s, act) && (r == p || r == q) && OnItsWay(Do(s, act), r, q, v')
    ensures Rank(v') < Rank(v) && Wanted(v') == Wanted(v)
  {
    HolderIs(s, p);
    ActiveOne(s.d.exits, s.d.protected, s.d.synced, HolderOf(s));
    var exit :| s.d.exits.active == {exit};
    act := Forward(s.drv, s.d, p, q, v, exit);
    ForwardCan(s.drv, s.d, p, q, v, exit);
    if v.Driving? {
      ForwardDriving(s.drv, s.d, p, q, v.job, v.cfg, v.stage, exit);
    }
    hide Facts, ApplyHeld, MuHeld, DeletesSafe, GateHeld, HolderOf, Can, Next, NeedsMu, Do, Inv, TurnsDown, Rank, Wanted;
    if act.Vary? {
      VaryOnItsWay(s, p, q, v, act.c);
      r, v' := p, Next(s.drv, s.d, v, act.c).1;
    } else {
      r, v' := DriverOnItsWay(s, p, q, v, act);
    }
  }

  lemma {:induction false} WayToConfirm(s: State, p: nat, q: nat, v: Variation) returns (path: seq<State>, r: nat)
    requires OnItsWay(s, p, q, v)
    ensures Path(path) && path[0] == s && |path| <= Rank(v) + 1
    ensures (r == p || r == q) && InForce(path[|path| - 1], r, Wanted(v))
    decreases Rank(v)
  {
    hide Rank, Wanted;
    if v.Ending? {
      path, r := [s], p;
      EndInForce(s, p, q, v);
    } else {
      hide OnItsWay, Enabled, Do;
      var act, next, v' := ForwardStep(s, p, q, v);
      var rest;
      rest, r := WayToConfirm(Do(s, act), next, q, v');
      PathThen(s, act, rest);
      path := [s] + rest;
    }
  }

  // About to leave the gate with the request in force.
  predicate InForce(s: State, p: nat, fin: Fin) {
    && IsVarying(s, p) && s.procs[p].v.Ending? && s.procs[p].v.fin == fin
    && match fin {
         case RuleMoved(target) => s.d.active == Some(target)
         case SwitchMoved(to) => s.d.exits.active == {to}
         case _ => false
       }
  }

  lemma EndInForce(s: State, p: nat, q: nat, v: Variation)
    requires OnItsWay(s, p, q, v) && v.Ending?
    ensures InForce(s, p, Wanted(v))
  {
    HolderIs(s, p);
    hide TableOf, RulesOf, SwitchFacts, RowFacts, HostFacts, GateHeld, ApplyHeld, MuHeld, DeletesSafe;
  }

  // Whoever has applyMu when a variation has just begun is an observer about to unlock.
  lemma HeldByUnlocker(s: State, p: nat)
    requires Inv(s) && IsVarying(s, p) && JustBegun(s.procs[p].v) && s.applyMu.Some?
    ensures s.applyMu.value in s.procs && s.procs[s.applyMu.value].Unlocking?
  {
    hide Facts, MuHeld, DeletesSafe;
  }

  // The steps of others that come first: a delete gives a.mu up, an observer that is done unlocks.
  lemma {:induction false} ClearTheWay(s: State, p: nat, q: nat) returns (path: seq<State>)
    requires Inv(s) && IsVarying(s, p) && JustBegun(s.procs[p].v) && q !in s.procs && GoodRequest(s.d, s.procs[p].v)
    ensures Path(path) && path[0] == s && |path| <= if s.mu.Some? then 3 else 2
    ensures OnItsWay(path[|path| - 1], p, q, s.procs[p].v)
    decreases s.mu.Some?
  {
    hide Facts, ApplyHeld, MuHeld, DeletesSafe, GateHeld, HolderOf, Count;
    if s.mu.Some? {
      var act := DeleteGivesUp(s);
      StepKeepsInv(s, act);
      hide Inv, Enabled, Do;
      var rest := ClearTheWay(Do(s, act), p, q);
      PathThen(s, act, rest);
      path := [s] + rest;
    } else if s.applyMu.Some? {
      HeldByUnlocker(s, p);
      var act := Unlock(s.applyMu.value);
      StepKeepsInv(s, act);
      PathThen(s, act, [Do(s, act)]);
      path := [s, Do(s, act)];
    } else {
      path := [s];
    }
  }

  /** From every reachable state in which a variation has just begun over data that meets its request there is a way, of
      no more steps than its rank and two of others, to the release of the gate with its request in force: a rules apply
      by an up-to-date caller of a stored version that parses, or a switch to an exit there is. */
  lemma GoodRequestCanBeConfirmed(run: seq<State>, i: nat, p: nat, q: nat) returns (path: seq<State>, r: nat)
    requires Run(run) && i < |run| && IsVarying(run[i], p) && JustBegun(run[i].procs[p].v) && q !in run[i].procs
    requires GoodRequest(run[i].d, run[i].procs[p].v)
    ensures Path(path) && path[0] == run[i] && |path| <= Rank(run[i].procs[p].v) + 4
    ensures InForce(path[|path| - 1], r, Wanted(run[i].procs[p].v))
  {
    hide Run, Inv, Rank, Wanted, InForce, GoodRequest, OnItsWay;
    RunInv(run, i);
    var first := ClearTheWay(run[i], p, q);
    var rest;
    rest, r := WayToConfirm(first[|first| - 1], p, q, run[i].procs[p].v);
    path := Joined(first, rest);
  }

  lemma Joined(first: seq<State>, rest: seq<State>) returns (path: seq<State>)
    requires Path(first) && Path(rest) && rest[0] == first[|first| - 1]
    ensures Path(path) && path[0] == first[0] && |path| == |first| + |rest| - 1
    ensures path[|path| - 1] == rest[|rest| - 1]
  {
    hide Step;
    path := first + rest[1..];
    forall i | 0 <= i < |path| - 1 ensures Step(path[i], path[i + 1]) {
      if i < |first| - 1 {
        assert Step(first[i], first[i + 1]);
      } else {
        assert Step(rest[i - |first| + 1], rest[i - |first| + 1 + 1]);
      }
    }
  }

  // ---------- who is let in ----------

  /** A variation is admitted exactly when nobody is varying. */
  lemma AdmittedWhenFree(run: seq<State>, i: nat, act: Action)
    requires Run(run) && i < |run| && Enabled(run[i], act) && (act.BeginRule? || act.BeginSwitch?)
    ensures IsVarying(Do(run[i], act), act.p) <==> forall r :: !IsVarying(run[i], r)
  {
    hide Run, Facts, ApplyHeld, MuHeld, DeletesSafe;
    RunInv(run, i);
    if run[i].gate.Some? {
      assert IsVarying(run[i], run[i].gate.value);
    }
  }

  /** A delete is turned away as in flight exactly when the exit is a side of the switch in hand, and one of an inactive
      exit that is not goes through when the store takes it. */
  lemma DeleteAnswered(run: seq<State>, i: nat, p: nat, id: string)
    requires Run(run) && i < |run| && Enabled(run[i], BeginDelete(p, id)) && id in run[i].d.exits.present
    ensures Do(run[i], BeginDelete(p, id)).procs[p] == Over <==> id in Sides(HolderOf(run[i]))
    ensures id !in Sides(HolderOf(run[i])) && id !in run[i].d.exits.active ==>
              var s := Do(run[i], BeginDelete(p, id));
              Enabled(s, LookUp(p, true)) && Enabled(Do(s, LookUp(p, true)), Remove(p, true))
              && Do(Do(s, LookUp(p, true)), Remove(p, true)).d.exits
                 == Exits(run[i].d.exits.present - {id}, run[i].d.exits.active)
  {
    hide Run, RuleFacts, SwitchFacts, RowFacts, HostFacts, ProtectedBy, ExitStagesOk, Sides, HolderOf, Count, GateHeld,
         ApplyHeld, MuHeld, DeletesSafe;
    RunInv(run, i);
    var s := run[i];
    SidesProtected(s.d.exits, s.d.protected, s.d.synced, HolderOf(s), id);
    if id !in s.d.exits.active {
      assert s.d.exits.active - {id} == s.d.exits.active;
    }
  }
}
