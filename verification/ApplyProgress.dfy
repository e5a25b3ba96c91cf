/** How long a variation can take: every step of its own brings it nearer to the end, and unless it is cut off it can
    always get there. */
module ApplyProgress {
  import opened Text
  import opened Stores
  import opened Applier
  import opened ApplyMachine
  import opened ApplyInvariant
  import opened ApplyRuns
  import opened ApplyTheorems
  import Systemd

  // ---------- every step of its own lowers the rank ----------

  function DriveRank(stage: DriveStage): nat {
    match stage
    case Dispatching => 11
    case Working => 10
    case Probing(_, _) => 9
    case Committing(_) => 8
    case Activating(_) => 7
    case Publishing(_) => 6
    case CommitRefused(_) => 6
    case Reporting(_) => 5
    case Returned(_) => 5
    case Aborting(_) => 1
    case Aborted(_) => 0
  }

  function FinishRank(stage: FinishStage): nat {
    match stage
    case Compensating(_) => 4
    case Recommitting => 3
    case Unpublishing => 3
    case SwitchEnding(_, _, _) => 3
    case RuleEnding(_) => 2
    case SwitchClearing => 2
    case RuleClearing(_) => 1
  }

  // The most steps of its own that v has before it.
  function Rank(v: Variation): nat {
    match v
    case RuleStart(_, _, _, stage) =>
      (match stage
       case RReading => 16
       case RPlanned => 15
       case RAssembled(_) => 14
       case RReady(_, _) => 13
       case RInserted(_, _, _) => 12)
    case SwitchStart(_, _, stage) =>
      (match stage
       case SReading => 18
       case SRead => 17
       case SProtected => 16
       case SMoved => 15
       case SAssembled(_) => 14
       case SSnapped(_, _) => 13
       case SInserted(_, _, _) => 12
       case SReverting => 2)
    case Driving(_, _, stage) => DriveRank(stage)
    case Finishing(_, stage, _) => FinishRank(stage)
    case Unprotecting(_, _, _, _) => 1
    case Ending(_, _) => 0
  }

  function HolderRank(v: Holder): nat {
    if v.Some? then Rank(v.value) else 0
  }

  lemma DriveLowers(drv: Driver, d: Data, job: Job, cfg: Config, stage: DriveStage, c: Choice)
    requires DriveCan(drv, d, job, cfg, stage, c)
    ensures Rank(DriveNext(d, job, cfg, stage, c).1) < DriveRank(stage)
  {
    hide TableOf, RulesOf, Systemd.Lands, Systemd.Observed;
  }

  lemma NextLowers(drv: Driver, d: Data, v: Variation, c: Choice)
    requires Can(drv, d, v, c)
    ensures Rank(Next(drv, d, v, c).1) < Rank(v)
  {
    hide TableOf, RulesOf, Protect, Unprotect, UpdateRow, DriveNext, DriveCan;
    if v.Driving? {
      DriveLowers(drv, d, v.job, v.cfg, v.stage, c);
    }
  }

  // A step of the variation in hand lowers its rank; a step of anyone else leaves it where it is.
  lemma StepLowers(s: State, act: Action)
    requires Inv(s) && Enabled(s, act) && s.gate.Some? && Do(s, act).gate.Some?
    ensures if OwnStep(act) then HolderRank(HolderOf(Do(s, act))) < HolderRank(HolderOf(s))
            else HolderOf(Do(s, act)) == HolderOf(s)
  {
    StepOfHolder(s, act);
    hide Inv, Do, Facts, HolderOf, Can, Next, NeedsMu, Count;
    if act.Vary? {
      NextLowers(s.drv, s.d, s.procs[act.p].v, act.c);
    }
  }

  // The steps between b and i at which the variation in hand moved.
  function Moves(run: seq<State>, b: nat, i: nat): nat
    requires b <= i < |run|
    decreases i - b
  {
    if b == i then 0
    else Moves(run, b, i - 1) + if HolderOf(run[i - 1]) != HolderOf(run[i]) then 1 else 0
  }

  lemma {:induction false} MovesLower(run: seq<State>, b: nat, i: nat)
    requires Run(run) && SameVariation(run, b, i)
    ensures Moves(run, b, i) + HolderRank(HolderOf(run[i])) <= HolderRank(HolderOf(run[b]))
    decreases i - b
  {
    hide Run, Enabled, Do, Inv, HolderRank, HolderOf;
    if b < i {
      HeldThroughout(run, b, i);
      MovesLower(run, b, i - 1);
      RunInv(run, i - 1);
      var act := StepAt(run, i);
      StepLowers(run[i - 1], act);
    }
  }

  /** A rules apply makes at most sixteen steps of its own, a switch at most eighteen, however often others step in
      between and whoever carries it to its end. */
  lemma VariationsAreShort(run: seq<State>, b: nat, i: nat, p: nat)
    requires Run(run) && SameVariation(run, b, i)
    requires IsVarying(run[b], p) && JustBegun(run[b].procs[p].v)
    ensures Moves(run, b, i) <= if run[b].procs[p].v.RuleStart? then 16 else 18
  {
    hide Run;
    HolderIsInside(run, b, p);
    MovesLower(run, b, i);
  }

  // ---------- and unless it is cut off there is a way to the end ----------

  // Its observation has been cut off, or is about to find that it was.
  predicate Doomed(v: Variation) {
    v.Driving? && (v.stage.Aborting? || v.stage.Aborted?)
  }

  ghost predicate Path(path: seq<State>) {
    path != [] && forall i :: 0 <= i < |path| - 1 ==> Step(path[i], path[i + 1])
  }

  lemma PathThen(s: State, act: Action, path: seq<State>)
    requires Enabled(s, act) && Path(path) && path[0] == Do(s, act)
    ensures Path([s] + path)
  {
    hide Enabled, Do;
    var longer := [s] + path;
    forall i | 0 <= i < |longer| - 1 ensures Step(longer[i], longer[i + 1]) {
      if i > 0 {
        assert Step(path[i - 1], path[i - 1 + 1]);
      }
    }
  }

  lemma OnwardEnabled(s: State, p: nat)
    requires Inv(s) && IsVarying(s, p) && !Doomed(s.procs[p].v) && s.mu.None?
    ensures Enabled(s, Onward(s.drv, s.d, p, s.procs[p].v))
  {
    var v := s.procs[p].v;
    HolderIs(s, p);
    hide TableOf, RulesOf, RuleFacts, ExitFacts, SwitchFacts, HostFacts, RowFacts, DriveCan, StageFits,
         FinishFits, FinishCan, GateHeld, ApplyHeld, MuHeld, DeletesSafe, HolderOf, Count;
    if v.Driving? {
      OnwardDriving(s.drv, s.d, p, v.job, v.cfg, v.stage);
    } else if v.Finishing? {
      FinishCanAlways(s.d, v.job, v.fstage, v.obs);
    }
  }

  // An observation that is not cut off at its step finds its variation's entry, so it does not end doomed.
  lemma DriveNotDoomed(drv: Driver, d: Data, job: Job, cfg: Config, stage: DriveStage, c: Choice)
    requires DriveCan(drv, d, job, cfg, stage, c) && !stage.Aborting? && !c.abort
    requires Fits(DriveNext(d, job, cfg, stage, c).1)
    ensures !Doomed(DriveNext(d, job, cfg, stage, c).1)
  {
    hide TableOf, RulesOf, Systemd.Lands, Systemd.Observed;
  }

  lemma StartNotDoomed(d: Data, v: Variation, c: Choice)
    requires v.RuleStart? || v.SwitchStart?
    ensures v.RuleStart? ==> !Doomed(RuleNext(d, v, c).1)
    ensures v.SwitchStart? ==> !Doomed(SwitchNext(d, v, c).1)
  {
    hide TableOf, RulesOf, Protect;
  }

  lemma NextFits(drv: Driver, d: Data, v: Variation, c: Choice)
    requires Can(drv, d, v, c) && Facts(drv, d, Some(v))
    ensures Fits(Next(drv, d, v, c).1)
  {
    NextKeeps(drv, d, v, c);
    hide RuleFacts, ExitFacts, SwitchFacts, HostFacts, RowFacts, Next, Fits;
  }

  lemma VaryNotDoomed(drv: Driver, d: Data, v: Variation, c: Choice)
    requires Can(drv, d, v, c) && Facts(drv, d, Some(v)) && !Doomed(v) && !c.abort
    ensures !Doomed(Next(drv, d, v, c).1)
  {
    NextFits(drv, d, v, c);
    hide Facts, Fits, Unprotect, UpdateRow, RuleNext, SwitchNext, DriveNext, DriveCan;
    if v.Driving? {
      DriveNotDoomed(drv, d, v.job, v.cfg, v.stage, c);
    } else if v.RuleStart? || v.SwitchStart? {
      StartNotDoomed(d, v, c);
    }
  }

  lemma OnwardStep(s: State, p: nat) returns (s': State)
    requires Inv(s) && IsVarying(s, p) && !Doomed(s.procs[p].v) && !s.procs[p].v.Ending? && s.mu.None?
    ensures Enabled(s, Onward(s.drv, s.d, p, s.procs[p].v)) && s' == Do(s, Onward(s.drv, s.d, p, s.procs[p].v))
    ensures Inv(s') && IsVarying(s', p) && !Doomed(s'.procs[p].v) && s'.mu.None?
    ensures Rank(s'.procs[p].v) < Rank(s.procs[p].v) && s'.ended == s.ended
  {
    var v := s.procs[p].v;
    var act := Onward(s.drv, s.d, p, v);
    OnwardEnabled(s, p);
    HolderIs(s, p);
    s' := Do(s, act);
    StepKeepsInv(s, act);
    OnwardIs(s.drv, s.d, p, v);
    hide Facts, ApplyHeld, MuHeld, DeletesSafe, GateHeld, HolderOf, Can, Next, NeedsMu, Releases, Onward;
    if act.Vary? {
      NextLowers(s.drv, s.d, v, act.c);
      VaryNotDoomed(s.drv, s.d, v, act.c);
    }
  }

  lemma OnwardIs(drv: Driver, d: Data, p: nat, v: Variation)
    requires !v.Ending?
    ensures var act := Onward(drv, d, p, v); (act.TryLock? && act.p == p) || (act.Vary? && act.p == p && !act.c.abort)
  {
  }

  lemma {:induction false} WayOut(s: State, p: nat) returns (path: seq<State>)
    requires Inv(s) && IsVarying(s, p) && !Doomed(s.procs[p].v) && s.mu.None?
    ensures Path(path) && path[0] == s && |path| <= Rank(s.procs[p].v) + 2
    ensures path[|path| - 1].gate.None? && path[|path| - 1].ended == s.ended + 1
    decreases Rank(s.procs[p].v)
  {
    hide Inv, Rank, Doomed;
    var v := s.procs[p].v;
    if v.Ending? {
      path := [Do(s, End(p))];
      PathThen(s, End(p), path);
      path := [s] + path;
    } else {
      var s' := OnwardStep(s, p);
      hide Enabled, Do, Onward;
      var rest := WayOut(s', p);
      PathThen(s, Onward(s.drv, s.d, p, v), rest);
      path := [s] + rest;
    }
  }

  // A delete under a.mu can always give it up.
  lemma DeleteGivesUp(s: State) returns (act: Action)
    requires Inv(s) && s.mu.Some?
    ensures Enabled(s, act) && Do(s, act).mu.None? && Do(s, act).ended == s.ended
    ensures Do(s, act).d == s.d && Do(s, act).applyMu == s.applyMu && Do(s, act).procs.Keys == s.procs.Keys
    ensures forall p :: IsVarying(s, p) ==> IsVarying(Do(s, act), p) && Do(s, act).procs[p] == s.procs[p]
  {
    DeleterAt(s);
    hide Inv, Count;
    var q := s.mu.value;
    act := if s.procs[q].DeleteChecked? then LookUp(q, false) else Remove(q, false);
  }

  /** From every reachable state a variation in hand that is not cut off can leave the gate: a path of no more steps than
      its rank, one for a delete that has a.mu, and the release. */
  lemma EveryVariationCanEnd(run: seq<State>, i: nat, p: nat) returns (path: seq<State>)
    requires Run(run) && i < |run| && IsVarying(run[i], p) && !Doomed(run[i].procs[p].v)
    ensures Path(path) && path[0] == run[i] && |path| <= Rank(run[i].procs[p].v) + 3
    ensures path[|path| - 1].gate.None? && path[|path| - 1].ended == run[i].ended + 1
  {
    hide Run, Inv, Rank, Doomed;
    RunInv(run, i);
    var s := run[i];
    if s.mu.Some? {
      var act := DeleteGivesUp(s);
      StepKeepsInv(s, act);
      hide Enabled, Do;
      path := WayOut(Do(s, act), p);
      PathThen(s, act, path);
      path := [s] + path;
    } else {
      path := WayOut(s, p);
    }
  }
}
