/** The apply pipeline over whole runs: the invariant is kept by every action of every goroutine, and what follows. */
module ApplyRuns {
  import opened Text
  import Rules
  import opened Stores
  import opened Applier
  import opened ApplyMachine
  import opened ApplyInvariant
  import Systemd

  // ---------- locks when one goroutine moves ----------

  lemma GateSame(gate: Option<nat>, procs: map<nat, Proc>, p: nat, proc: Proc)
    requires GateHeld(gate, procs)
    requires proc.Varying? <==> p in procs && procs[p].Varying?
    ensures GateHeld(gate, procs[p := proc])
  {
  }

  lemma GateTaken(procs: map<nat, Proc>, p: nat, v: Variation)
    requires GateHeld(None, procs)
    ensures GateHeld(Some(p), procs[p := Varying(v)])
  {
  }

  lemma GateDropped(procs: map<nat, Proc>, p: nat, proc: Proc)
    requires GateHeld(Some(p), procs) && !proc.Varying?
    ensures GateHeld(None, procs[p := proc])
  {
  }

  lemma ApplySame(applyMu: Option<nat>, procs: map<nat, Proc>, p: nat, proc: Proc)
    requires ApplyHeld(applyMu, procs)
    requires OwnsApply(proc) <==> p in procs && OwnsApply(procs[p])
    ensures ApplyHeld(applyMu, procs[p := proc])
  {
    hide OwnsApply;
  }

  lemma ApplyTaken(procs: map<nat, Proc>, p: nat, proc: Proc)
    requires ApplyHeld(None, procs) && OwnsApply(proc)
    ensures ApplyHeld(Some(p), procs[p := proc])
  {
    hide OwnsApply;
  }

  lemma ApplyDropped(applyMu: Option<nat>, procs: map<nat, Proc>, p: nat, proc: Proc)
    requires ApplyHeld(applyMu, procs) && p in procs && OwnsApply(procs[p]) && !OwnsApply(proc)
    ensures ApplyHeld(None, procs[p := proc])
  {
    hide OwnsApply;
  }

  lemma MuSame(mu: Option<nat>, procs: map<nat, Proc>, p: nat, proc: Proc)
    requires MuHeld(mu, procs) && (Deleting(proc) <==> p in procs && Deleting(procs[p]))
    ensures MuHeld(mu, procs[p := proc])
  {
  }

  lemma MuTaken(procs: map<nat, Proc>, p: nat, proc: Proc)
    requires MuHeld(None, procs) && Deleting(proc)
    ensures MuHeld(Some(p), procs[p := proc])
  {
  }

  lemma MuDropped(mu: Option<nat>, procs: map<nat, Proc>, p: nat, proc: Proc)
    requires MuHeld(mu, procs) && p in procs && Deleting(procs[p]) && !Deleting(proc)
    ensures MuHeld(None, procs[p := proc])
  {
  }

  lemma DeletesSame(exits: Exits, protected: map<string, nat>, procs: map<nat, Proc>, p: nat, proc: Proc)
    requires DeletesSafe(exits, protected, procs)
    requires Deleting(proc) ==>
               Count(protected, proc.id) == 0 && (proc.DeleteLooked? ==> proc.id !in exits.active)
    ensures DeletesSafe(exits, protected, procs[p := proc])
  {
    hide Count;
  }

  lemma NoDeletes(exits: Exits, protected: map<string, nat>, procs: map<nat, Proc>)
    requires MuHeld(None, procs)
    ensures DeletesSafe(exits, protected, procs)
  {
  }

  lemma HolderIs(s: State, p: nat)
    requires GateHeld(s.gate, s.procs) && IsVarying(s, p)
    ensures s.gate == Some(p) && HolderOf(s) == Some(s.procs[p].v)
  {
  }

  lemma NoHolder(s: State)
    requires s.gate.None?
    ensures HolderOf(s) == None
  {
  }

  // A goroutine other than the holder moves: the holder is the same.
  lemma SameHolder(s: State, s': State, p: nat, proc: Proc)
    requires GateHeld(s.gate, s.procs) && s'.gate == s.gate && s'.procs == s.procs[p := proc]
    requires !proc.Varying? && !IsVarying(s, p)
    ensures HolderOf(s') == HolderOf(s)
  {
  }

  // ---------- each action ----------

  lemma BeginInv(s: State, p: nat, v: Variation)
    requires Inv(s) && p !in s.procs && s.mu.None?
    requires (v.RuleStart? && v.rstage.RReading?) || (v.SwitchStart? && v.sstage.SReading? && v.to != "")
    ensures Inv(Begin(s, p, v))
  {
    hide GateHeld, ApplyHeld, MuHeld, DeletesSafe, Facts, HolderOf;
    var proc := if s.gate.Some? then Over else Varying(v);
    ApplySame(s.applyMu, s.procs, p, proc);
    MuSame(s.mu, s.procs, p, proc);
    DeletesSame(s.d.exits, s.d.protected, s.procs, p, proc);
    if s.gate.Some? {
      GateSame(s.gate, s.procs, p, Over);
      SameHolder(s, Begin(s, p, v), p, Over);
    } else {
      GateTaken(s.procs, p, v);
      NoHolder(s);
      BeginKeeps(s.drv, s.d, v);
      HolderIs(Begin(s, p, v), p);
    }
  }

  lemma VaryDeletes(s: State, p: nat, c: Choice)
    requires Inv(s) && Enabled(s, Vary(p, c))
    ensures DeletesSafe(VaryStep(s, p, c).d.exits, VaryStep(s, p, c).d.protected, VaryStep(s, p, c).procs)
  {
    hide GateHeld, ApplyHeld, Facts, HolderOf, Can, Next, NeedsMu, Count, Releases;
    var v := s.procs[p].v;
    var s' := VaryStep(s, p, c);
    HolderIs(s, p);
    MuSame(s.mu, s.procs, p, s'.procs[p]);
    if NeedsMu(v) {
      NoDeletes(s'.d.exits, s'.d.protected, s'.procs);
    } else {
      NextKeepsProtection(s.drv, s.d, v, c);
      forall q | q in s'.procs && Deleting(s'.procs[q])
        ensures Count(s'.d.protected, s'.procs[q].id) == 0
        ensures s'.procs[q].DeleteLooked? ==> s'.procs[q].id !in s'.d.exits.active
      {
        NextSparesDeletes(s.drv, s.d, v, c, s.procs[q].id);
      }
    }
  }

  lemma VaryInv(s: State, p: nat, c: Choice)
    requires Inv(s) && Enabled(s, Vary(p, c))
    ensures Inv(VaryStep(s, p, c))
  {
    VaryDeletes(s, p, c);
    hide GateHeld, ApplyHeld, MuHeld, DeletesSafe, Facts, HolderOf, OwnsApply, Can, Next, NeedsMu, Releases;
    var v := s.procs[p].v;
    var s' := VaryStep(s, p, c);
    HolderIs(s, p);
    NextKeeps(s.drv, s.d, v, c);
    NextApplyMu(s.drv, s.d, v, c);
    GateSame(s.gate, s.procs, p, s'.procs[p]);
    MuSame(s.mu, s.procs, p, s'.procs[p]);
    if Releases(s.drv, s.d, v, c) {
      ApplyDropped(s.applyMu, s.procs, p, s'.procs[p]);
    } else {
      ApplySame(s.applyMu, s.procs, p, s'.procs[p]);
    }
    HolderIs(s', p);
  }

  lemma TryLockInv(s: State, p: nat)
    requires Inv(s) && Enabled(s, TryLock(p))
    ensures Inv(Do(s, TryLock(p)))
  {
    hide GateHeld, ApplyHeld, MuHeld, DeletesSafe, Facts, HolderOf;
    var v := s.procs[p].v;
    var s' := Do(s, TryLock(p));
    HolderIs(s, p);
    TryLockKeeps(s.drv, s.d, v.job, v.cfg, s'.procs[p].v.stage);
    GateSame(s.gate, s.procs, p, s'.procs[p]);
    MuSame(s.mu, s.procs, p, s'.procs[p]);
    DeletesSame(s.d.exits, s.d.protected, s.procs, p, s'.procs[p]);
    if s.applyMu.Some? {
      ApplySame(s.applyMu, s.procs, p, s'.procs[p]);
    } else {
      ApplyTaken(s.procs, p, s'.procs[p]);
    }
    HolderIs(s', p);
  }

  lemma ObserveLocks(s: State, p: nat, q: nat, host: Host)
    requires Inv(s) && Enabled(s, Observe(p, q, host))
    ensures var s' := Do(s, Observe(p, q, host));
            GateHeld(s'.gate, s'.procs) && ApplyHeld(s'.applyMu, s'.procs) && MuHeld(s'.mu, s'.procs)
            && DeletesSafe(s'.d.exits, s'.d.protected, s'.procs)
  {
    hide GateHeld, ApplyHeld, MuHeld, DeletesSafe, Facts, HolderOf;
    var v := s.procs[p].v;
    var proc := Varying(v.(stage := Probing(s.d.host.disk, s.d.synced)));
    HolderIs(s, p);
    GateDropped(s.procs, p, Lingering);
    GateTaken(s.procs[p := Lingering], q, proc.v);
    ApplyDropped(s.applyMu, s.procs, p, Lingering);
    ApplyTaken(s.procs[p := Lingering], q, proc);
    MuSame(s.mu, s.procs, p, Lingering);
    MuSame(s.mu, s.procs[p := Lingering], q, proc);
    DeletesSame(s.d.exits, s.d.protected, s.procs, p, Lingering);
    DeletesSame(s.d.exits, s.d.protected, s.procs[p := Lingering], q, proc);
    assert s.procs[p := Lingering][q := proc] == s.procs[q := proc][p := Lingering];
  }

  lemma ObserveInv(s: State, p: nat, q: nat, host: Host)
    requires Inv(s) && Enabled(s, Observe(p, q, host))
    ensures Inv(Do(s, Observe(p, q, host)))
  {
    ObserveLocks(s, p, q, host);
    hide GateHeld, ApplyHeld, MuHeld, DeletesSafe, Facts, HolderOf;
    var v := s.procs[p].v;
    HolderIs(s, p);
    ObserveKeeps(s.drv, s.d, v.job, v.cfg, host);
    HolderIs(Do(s, Observe(p, q, host)), q);
  }

  lemma EndInv(s: State, p: nat)
    requires Inv(s) && Enabled(s, End(p))
    ensures Inv(Do(s, End(p)))
  {
    hide GateHeld, ApplyHeld, MuHeld, DeletesSafe, Facts, HolderOf;
    var s' := Do(s, End(p));
    HolderIs(s, p);
    EndKeeps(s.drv, s.d, s.procs[p].v.obs, s.procs[p].v.fin);
    GateDropped(s.procs, p, s'.procs[p]);
    ApplySame(s.applyMu, s.procs, p, s'.procs[p]);
    MuSame(s.mu, s.procs, p, s'.procs[p]);
    DeletesSame(s.d.exits, s.d.protected, s.procs, p, s'.procs[p]);
    NoHolder(s');
  }

  // Steps of goroutines outside the gate that leave the data alone.
  lemma OutsideInv(s: State, a: Action)
    requires Inv(s) && Enabled(s, a)
    requires a.Unlock? || a.Linger? || a.BeginDelete? || a.LookUp?
    ensures Inv(Do(s, a))
  {
    hide GateHeld, ApplyHeld, MuHeld, DeletesSafe, Facts, HolderOf;
    var s' := Do(s, a);
    var p := a.p;
    GateSame(s.gate, s.procs, p, s'.procs[p]);
    SameHolder(s, s', p, s'.procs[p]);
    if a.Unlock? {
      ApplyDropped(s.applyMu, s.procs, p, Over);
    } else {
      ApplySame(s.applyMu, s.procs, p, s'.procs[p]);
    }
    DeleteAt(s, p);
    DeletesSame(s.d.exits, s.d.protected, s.procs, p, s'.procs[p]);
    if Deleting(s'.procs[p]) && a.BeginDelete? {
      MuTaken(s.procs, p, s'.procs[p]);
    } else if a.LookUp? && !Deleting(s'.procs[p]) {
      MuDropped(s.mu, s.procs, p, s'.procs[p]);
    } else {
      MuSame(s.mu, s.procs, p, s'.procs[p]);
    }
  }

  lemma DeleteAt(s: State, p: nat)
    requires DeletesSafe(s.d.exits, s.d.protected, s.procs)
    ensures p in s.procs && Deleting(s.procs[p]) ==>
              Count(s.d.protected, s.procs[p].id) == 0
              && (s.procs[p].DeleteLooked? ==> s.procs[p].id !in s.d.exits.active)
  {
  }

  lemma RemoveInv(s: State, p: nat, ok: bool)
    requires Inv(s) && Enabled(s, Remove(p, ok))
    ensures Inv(Do(s, Remove(p, ok)))
  {
    hide GateHeld, ApplyHeld, MuHeld, DeletesSafe, Facts, HolderOf, Count;
    var s' := Do(s, Remove(p, ok));
    var id := s.procs[p].id;
    DeleteAt(s, p);
    RemoveKeeps(s.drv, s.d, HolderOf(s), id);
    GateSame(s.gate, s.procs, p, Over);
    SameHolder(s, s', p, Over);
    ApplySame(s.applyMu, s.procs, p, Over);
    MuDropped(s.mu, s.procs, p, Over);
    NoDeletes(s'.d.exits, s'.d.protected, s'.procs);
  }

  lemma AddExitDeletes(s: State, id: string)
    requires DeletesSafe(s.d.exits, s.d.protected, s.procs)
    ensures DeletesSafe(s.d.exits.(present := s.d.exits.present + {id}), s.d.protected, s.procs)
  {
  }

  lemma AddInv(s: State, a: Action)
    requires Inv(s) && Enabled(s, a) && (a.AddExit? || a.AddVersion?)
    ensures Inv(Do(s, a))
  {
    hide GateHeld, ApplyHeld, MuHeld, DeletesSafe, Facts;
    match a {
      case AddExit(id) =>
        AddExitKeeps(s.drv, s.d, HolderOf(s), id);
        AddExitDeletes(s, id);
      case AddVersion(vid, version) =>
        AddVersionKeeps(s.drv, s.d, HolderOf(s), vid, version);
    }
  }

  lemma StepKeepsInv(s: State, a: Action)
    requires Inv(s) && Enabled(s, a)
    ensures Inv(Do(s, a))
  {
    hide Inv, Begin, VaryStep, Can, Next, NeedsMu, Become;
    match a {
      case BeginRule(p, snap, target, prev) => BeginInv(s, p, RuleStart(snap, target, prev, RReading));
      case BeginSwitch(p, to) => BeginInv(s, p, SwitchStart(to, "", SReading));
      case Vary(p, c) => VaryInv(s, p, c);
      case TryLock(p) => TryLockInv(s, p);
      case Observe(p, q, host) => ObserveInv(s, p, q, host);
      case End(p) => EndInv(s, p);
      case Remove(p, ok) => RemoveInv(s, p, ok);
      case AddExit(_) => AddInv(s, a);
      case AddVersion(_, _) => AddInv(s, a);
      case _ => OutsideInv(s, a);
    }
  }

  lemma InitInv(s: State)
    requires Init(s)
    ensures Inv(s)
  {
    hide TableOf, RulesOf;
  }

  lemma RunStarts(run: seq<State>)
    requires Run(run)
    ensures Init(run[0])
  {
  }

  lemma StepAt(run: seq<State>, j: nat) returns (a: Action)
    requires Run(run) && 0 < j < |run|
    ensures Enabled(run[j - 1], a) && run[j] == Do(run[j - 1], a)
  {
    hide Enabled, Do, Init;
    assert Step(run[j - 1], run[j - 1 + 1]);
    a :| Enabled(run[j - 1], a) && run[j] == Do(run[j - 1], a);
  }

  lemma {:induction false} RunInv(run: seq<State>, i: nat)
    requires Run(run) && i < |run|
    ensures Inv(run[i])
  {
    hide Run, Init, Inv, Enabled, Do;
    if i == 0 {
      RunStarts(run);
      InitInv(run[0]);
    } else {
      RunInv(run, i - 1);
      var a := StepAt(run, i);
      StepKeepsInv(run[i - 1], a);
    }
  }
}
