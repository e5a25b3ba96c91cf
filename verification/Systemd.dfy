/** The systemd driver: three rendered files, three units that load them, one apply at a time.
    Every file write, removal, unit reload and probe may fail. */
module Systemd {
  import opened Text

  // A file on disk, or what a unit last loaded; each of the three is a function of the rendered config.
  datatype File<C> = Absent | Rendered(cfg: C) | Foreign(body: nat)

  // dnsdist, mihomo, sniproxy
  type Files<C> = fs: seq<File<C>> | |fs| == 3 witness [Absent, Absent, Absent]

  datatype Host<C> = Host(disk: Files<C>, loaded: Files<C>)

  function AllRendered<C>(cfg: C): Files<C> {
    [Rendered(cfg), Rendered(cfg), Rendered(cfg)]
  }

  // Files and units both show cfg.
  function InSync<C>(cfg: C): Host<C> {
    Host(AllRendered(cfg), AllRendered(cfg))
  }

  // What the context of an observation allows beyond delay and timeout, in milliseconds.
  const SLACK: nat := 30000

  datatype Stage = Snapshotting | Rendering | Reloading | Health | Commit

  datatype ApplyResult =
    | InFlight                 // ErrApplyInFlight
    | RolledBack(stage: Stage)
    | Failed(stage: Stage)     // health failed and no confirmed rollback
    | Observing
    | Confirmed

  // Every file is one of its two versions, whole.
  predicate EachFrom<C(==)>(files: Files<C>, a: Files<C>, b: Files<C>) {
    forall i :: 0 <= i < 3 ==> files[i] == a[i] || files[i] == b[i]
  }

  // What Apply leaves behind, by the result it reports.
  predicate Lands<C(==)>(h: Host<C>, cfg: C, res: ApplyResult, h': Host<C>) {
    match res
    case InFlight => h' == h
    case RolledBack(Rendering) => h' == h
    case RolledBack(_) => h' == Host(h.disk, h.disk)
    case Failed(Snapshotting) => h' == h
    case Failed(Rendering) => h'.loaded == h.loaded && EachFrom(h'.disk, h.disk, AllRendered(cfg))
    case Failed(_) => EachFrom(h'.disk, h.disk, AllRendered(cfg))
    case Observing => h' == InSync(cfg)
    case Confirmed => h' == InSync(cfg)
  }

  // What the health observation leaves behind; None is an observation that was cut off before its probe.
  predicate Observed<C(==)>(prev: Files<C>, cfg: C, res: Option<ApplyResult>, h': Host<C>) {
    match res
    case None => h' == InSync(cfg)
    case Some(Confirmed) => h' == InSync(cfg)
    case Some(RolledBack(_)) => h' == Host(prev, prev)
    case Some(_) => EachFrom(h'.disk, prev, AllRendered(cfg))
  }

  /** A reported rollback always restores the files; it restores what the units had loaded exactly when no reload
      had been reached, or they had been running the files that were on disk. */
  lemma RollbackIsExact<C>(h: Host<C>, cfg: C, stage: Stage, h': Host<C>)
    requires Lands(h, cfg, RolledBack(stage), h')
    ensures h'.disk == h.disk
    ensures h'.loaded == h.loaded <==> stage.Rendering? || h.loaded == h.disk
  {
  }

  // The three files carry cfg; the units have not been told.
  predicate FilesReplaced<C(==)>(h: Host<C>, cfg: C, h': Host<C>) {
    h' == Host(AllRendered(cfg), h.loaded)
  }

  // The first n units run their files, the next one is unknown, the rest were not reached.
  ghost predicate ReloadStopped<C>(h: Host<C>, h': Host<C>) {
    h'.disk == h.disk
    && exists n :: 0 <= n < 3 && h'.loaded[..n] == h.disk[..n] && h'.loaded[n + 1..] == h.loaded[n + 1..]
  }

  predicate PutBack<C(==)>(prev: Files<C>, h': Host<C>) {
    h' == Host(prev, prev)
  }

  /** Whenever a unit runs something other than its file, an Apply whose first reload fails and whose way back works
      reports a rollback and leaves that unit running the file. The four hosts are those between the steps. */
  lemma OutOfSyncRollback<C>(h: Host<C>, cfg: C) returns (rendered: Host<C>, stopped: Host<C>, h': Host<C>)
    requires h.loaded != h.disk
    ensures FilesReplaced(h, cfg, rendered) && ReloadStopped(rendered, stopped) && PutBack(h.disk, h')
    ensures Lands(h, cfg, RolledBack(Reloading), h') && h'.disk == h.disk && h'.loaded != h.loaded
  {
    rendered := Host(AllRendered(cfg), h.loaded);
    stopped := rendered;
    h' := Host(h.disk, h.disk);
    assert stopped.loaded[..0] == rendered.disk[..0];
  }

  /** From a host in sync, every result but Failed leaves it in sync: with the request once confirmed or observing,
      with what it had before otherwise. */
  lemma StaysInSync<C>(was: C, cfg: C, res: ApplyResult, h': Host<C>)
    requires Lands(InSync(was), cfg, res, h') && (res.Failed? ==> res.stage.Snapshotting?)
    ensures h' == InSync(if res.Observing? || res.Confirmed? then cfg else was)
  {
  }

  datatype Observation<C> = Observation(cfg: C, prev: Files<C>)

  // Apply up to the point where the request's config is loaded: Over released applyMu again, Holding did not.
  datatype Begun<C> = Over(res: ApplyResult) | Holding(prev: Files<C>)

  // An observation up to the point where the probe has spoken; Late reaches no observer.
  datatype Probed = Late | Unhealthy(res: ApplyResult) | Healthy

  datatype RollbackResult = Refused | NoBaseConfig | NoSnapshot | Reapplied | NotReapplied(compensated: bool)

  class Systemd<C(==)> {
    var disk: Files<C>
    var loaded: Files<C>
    var config: Option<C>        // the last config that was confirmed
    var applying: bool           // applyMu
    const hasHealthCheck: bool
    const delay: int             // HealthDelay and HealthTimeout, in milliseconds
    const timeout: int
    ghost var locks: nat
    ghost var unlocks: nat
    // Reads, writes, reloads and probes that failed; of these, those of the snapshot and those on a way back.
    ghost var faults: nat
    ghost var snapFaults: nat
    ghost var backFaults: nat

    ghost predicate Valid()
      reads this`locks, this`unlocks, this`applying
    {
      locks == unlocks + if applying then 1 else 0
    }

    function View(): Host<C>
      reads this`disk, this`loaded
    {
      Host(disk, loaded)
    }

    function Budget(): int {
      delay + timeout + SLACK
    }

    constructor (host: Host<C>, cfg: Option<C>, health: bool, healthDelay: int, healthTimeout: int)
      ensures Valid() && View() == host && config == cfg && !applying
      ensures hasHealthCheck == health && delay == healthDelay && timeout == healthTimeout
    {
      disk, loaded, config, applying := host.disk, host.loaded, cfg, false;
      hasHealthCheck, delay, timeout := health, healthDelay, healthTimeout;
      locks, unlocks := 0, 0;
      faults, snapFaults, backFaults := 0, 0, 0;
    }

    method TryLock() returns (ok: bool)
      requires Valid()
      modifies this`applying, this`locks
      ensures Valid() && applying
      ensures ok == !old(applying) && locks == old(locks) + if ok then 1 else 0
    {
      ok := !applying;
      if ok {
        applying, locks := true, locks + 1;
      }
    }

    method Unlock()
      requires Valid() && applying
      modifies this`applying, this`unlocks
      ensures Valid() && !applying && unlocks == old(unlocks) + 1
    {
      applying, unlocks := false, unlocks + 1;
    }

    method SnapshotPath(i: nat) returns (ok: bool, file: File<C>)
      requires i < 3
      modifies this`faults, this`snapFaults
      ensures ok ==> file == disk[i]
      ensures faults - old(faults) == snapFaults - old(snapFaults) == if ok then 0 else 1
    {
      ok := *;
      file := disk[i];
      if !ok {
        faults, snapFaults := faults + 1, snapFaults + 1;
      }
    }

    /** Fails only by a read that failed. */
    method SnapshotCurrent() returns (ok: bool, prev: Files<C>)
      modifies this`faults, this`snapFaults
      ensures ok ==> prev == disk
      ensures faults - old(faults) == snapFaults - old(snapFaults) == if ok then 0 else 1
    {
      prev := disk;
      var dnsdist, mihomo, sniproxy;
      ok, dnsdist := SnapshotPath(0);
      if !ok { return; }
      ok, mihomo := SnapshotPath(1);
      if !ok { return; }
      ok, sniproxy := SnapshotPath(2);
      prev := [dnsdist, mihomo, sniproxy];
    }

    // A temporary file is renamed into place, so a failed write leaves the file as it was.
    method WriteAtomic(i: nat, file: File<C>) returns (ok: bool)
      requires i < 3
      modifies this`disk, this`faults
      ensures disk == if ok then old(disk)[i := file] else old(disk)
      ensures faults == old(faults) + if ok then 0 else 1
    {
      ok := *;
      if ok {
        disk := disk[i := file];
      } else {
        faults := faults + 1;
      }
    }

    /** Stops at the first file that cannot be rendered; the ones before it are already replaced. */
    method Render(cfg: C) returns (ok: bool)
      modifies this`disk, this`faults
      ensures faults == old(faults) + if ok then 0 else 1
      ensures ok ==> FilesReplaced(old(View()), cfg, View())
      ensures !ok ==> exists n :: 0 <= n < 3 && disk == AllRendered(cfg)[..n] + old(disk)[n..]
    {
      ok := WriteAtomic(0, Rendered(cfg));
      if !ok {
        assert disk == AllRendered(cfg)[..0] + old(disk)[0..];
        return;
      }
      ok := WriteAtomic(1, Rendered(cfg));
      if !ok {
        assert disk == AllRendered(cfg)[..1] + old(disk)[1..];
        return;
      }
      ok := WriteAtomic(2, Rendered(cfg));
      if !ok {
        assert disk == AllRendered(cfg)[..2] + old(disk)[2..];
      }
    }

    /** Goes on after a file it cannot put back; ok means every file is back, the absent ones absent. */
    method Restore(prev: Files<C>) returns (ok: bool)
      modifies this`disk, this`faults, this`backFaults
      ensures ok ==> disk == prev
      ensures EachFrom(disk, prev, old(disk))
      ensures ok <==> backFaults == old(backFaults)
      ensures faults - old(faults) == backFaults - old(backFaults) >= 0
    {
      ok := true;
      for i := 0 to 3
        invariant faults - old(faults) == backFaults - old(backFaults) >= 0
        invariant ok <==> backFaults == old(backFaults)
        invariant ok ==> disk[..i] == prev[..i]
        invariant disk[i..] == old(disk)[i..]
        invariant forall k :: 0 <= k < i ==> disk[k] == prev[k] || disk[k] == old(disk)[k]
      {
        var done := WriteAtomic(i, prev[i]);
        ok := ok && done;
        backFaults := backFaults + if done then 0 else 1;
      }
    }

    // What a unit runs after its reload failed.
    method FailedUnit() returns (file: File<C>)
    {
      file := *;
    }

    /** Stops at the first unit that fails, whose own state is then unknown. */
    method ReloadUnits() returns (ok: bool)
      modifies this`loaded, this`faults
      ensures ok ==> loaded == disk
      ensures faults == old(faults) + if ok then 0 else 1
      ensures !ok ==> ReloadStopped(old(View()), View())
    {
      for i := 0 to 3
        invariant loaded[..i] == disk[..i] && loaded[i..] == old(loaded)[i..]
        invariant faults == old(faults)
      {
        ok := *;
        if !ok {
          faults := faults + 1;
          var unknown := FailedUnit();
          var after := loaded[i := unknown];
          assert |after| == 3 && after[..i] == disk[..i] && after[i + 1..] == old(loaded)[i + 1..];
          loaded := after;
          return;
        }
        loaded := loaded[i := disk[i]];
      }
      ok := true;
    }

    method RestoreAndReload(prev: Files<C>) returns (ok: bool)
      modifies this`disk, this`loaded, this`faults, this`backFaults
      ensures ok ==> PutBack(prev, View())
      ensures EachFrom(disk, prev, old(disk))
      ensures ok <==> backFaults == old(backFaults)
      ensures faults - old(faults) == backFaults - old(backFaults) >= 0
    {
      var restored := Restore(prev);
      var reloaded := ReloadUnits();
      backFaults := backFaults + if reloaded then 0 else 1;
      ok := restored && reloaded;
    }

    /** commit: None when the request has no commit callback, else what calling it returns.
        atCommit: the host as the callback found it. */
    method CommitOrRestore(commit: Option<bool>, prev: Files<C>)
      returns (rolledBack: bool, ok: bool, atCommit: Option<Host<C>>)
      modifies this`disk, this`loaded, this`faults, this`backFaults
      ensures ok <==> commit != Some(false)
      ensures rolledBack <==> !ok && backFaults == old(backFaults)
      ensures faults - old(faults) == backFaults - old(backFaults) >= 0
      ensures ok ==> backFaults == old(backFaults)
      ensures ok ==> View() == old(View()) && !rolledBack
      ensures rolledBack ==> View() == Host(prev, prev)
      ensures EachFrom(disk, prev, old(disk))
      ensures atCommit == if commit.Some? then Some(old(View())) else None
    {
      if commit.None? {
        return false, true, None;
      }
      atCommit := Some(View());
      if !commit.value {
        var back := RestoreAndReload(prev);
        return back, false, atCommit;
      }
      return false, true, atCommit;
    }

    // A step that was turned back met a fault; it is reported failed exactly when the snapshot or the way back met one,
    // and otherwise rolled back.
    twostate predicate Blames(turnedBack: bool, failed: bool)
      reads this
    {
      && (turnedBack <==> faults > old(faults))
      && (failed <==> snapFaults > old(snapFaults) || backFaults > old(backFaults))
      && faults >= old(faults) && snapFaults >= old(snapFaults) && backFaults >= old(backFaults)
    }

    /** Lock, snapshot, render, reload, with the way back from each. It fails only by a fault of the snapshot or of the
        way back itself, and without any fault the config is loaded. */
    method BeginApply(cfg: C) returns (step: Begun<C>)
      requires Valid()
      modifies this
      ensures Valid() && config == old(config)
      ensures step.Over? ==>
                && Lands(old(View()), cfg, step.res, View()) && applying == old(applying)
                && (step.res.InFlight? || step.res.RolledBack? || step.res.Failed?)
                && (step.res.InFlight? <==> old(applying))
                && unlocks - old(unlocks) == locks - old(locks) == if old(applying) then 0 else 1
      ensures step.Holding? ==>
                && View() == InSync(cfg) && step.prev == old(disk) && !old(applying) && applying
                && locks == old(locks) + 1 && unlocks == old(unlocks)
      ensures Blames(step.Over? && !step.res.InFlight?, step.Over? && step.res.Failed?)
      ensures step.Over? && step.res.InFlight? ==> faults == old(faults)
    {
      var got := TryLock();
      if !got {
        return Over(InFlight);
      }
      var snapped, prev := SnapshotCurrent();
      if !snapped {
        Unlock();
        return Over(Failed(Snapshotting));
      }
      var rendered := Render(cfg);
      if !rendered {
        var restored := Restore(prev);
        Unlock();
        return Over(if restored then RolledBack(Rendering) else Failed(Rendering));
      }
      var reloaded := ReloadUnits();
      if !reloaded {
        var back := RestoreAndReload(prev);
        Unlock();
        return Over(if back then RolledBack(Reloading) else Failed(Reloading));
      }
      return Holding(prev);
    }

    /** The commit, or the way back from a refused one; applyMu stays held. */
    method Settle(cfg: C, prev: Files<C>, commit: Option<bool>) returns (res: ApplyResult, atCommit: Option<Host<C>>)
      requires Valid() && applying && View() == InSync(cfg)
      modifies this`disk, this`loaded, this`config, this`faults, this`backFaults
      ensures Valid() && Observed(prev, cfg, Some(res), View())
      ensures res.Failed? <==> backFaults > old(backFaults)
      ensures faults - old(faults) == backFaults - old(backFaults) >= 0
      ensures if commit == Some(false) then res == RolledBack(Commit) || res == Failed(Commit) else res == Confirmed
      ensures config == if res.Confirmed? then Some(cfg) else old(config)
      ensures atCommit == if commit.Some? then Some(InSync(cfg)) else None
    {
      var rolledBack, committed;
      rolledBack, committed, atCommit := CommitOrRestore(commit, prev);
      if !committed {
        return if rolledBack then RolledBack(Commit) else Failed(Commit), atCommit;
      }
      config := Some(cfg);
      return Confirmed, atCommit;
    }

    /** Apply up to the point where it returns to its caller. With a health check configured a successful one
        returns Observing, and observeHealth goes on from watch with applyMu still held. */
    method Apply(cfg: C, commit: Option<bool>)
      returns (res: ApplyResult, watch: Option<Observation<C>>, atCommit: Option<Host<C>>)
      requires Valid()
      modifies this
      ensures Valid()
      ensures res.InFlight? <==> old(applying)
      ensures Lands(old(View()), cfg, res, View())
      ensures res.Observing? <==> watch.Some?
      ensures watch.Some? ==> hasHealthCheck && watch == Some(Observation(cfg, old(disk)))
      ensures res.Confirmed? ==> !hasHealthCheck && commit != Some(false)
      ensures config == if res.Confirmed? then Some(cfg) else old(config)
      ensures atCommit.Some? ==> !hasHealthCheck && commit.Some? && atCommit == Some(InSync(cfg))
      ensures commit.Some? && atCommit.None? ==> !res.Confirmed?
      ensures applying <==> old(applying) || res.Observing?
      ensures locks == old(locks) + if old(applying) then 0 else 1
      ensures unlocks == old(unlocks) + if old(applying) || res.Observing? then 0 else 1
      ensures res.Failed? <==> snapFaults > old(snapFaults) || backFaults > old(backFaults)
      ensures faults == old(faults) && !old(applying) ==>
                if hasHealthCheck then res.Observing?
                else if commit == Some(false) then res == RolledBack(Commit) else res == Confirmed
      ensures faults > old(faults) ==> res.RolledBack? || res.Failed?
    {
      var step := BeginApply(cfg);
      if step.Over? {
        return step.res, None, None;
      }
      if hasHealthCheck {
        return Observing, Some(Observation(cfg, step.prev)), None;
      }
      res, atCommit := Settle(cfg, step.prev, commit);
      watch := None;
      Unlock();
    }

    // How long the delay took: the timer and the end of the context are the only things that end it.
    method Sleep() returns (woke: nat)
      ensures delay > 0 ==> woke >= delay || woke >= Budget()
    {
      var late: int := *;
      var first := if delay <= Budget() then delay else Budget();
      woke := if late < 0 || late < first then (if first < 0 then 0 else first) else late;
    }

    /** The delay and the probe, and the way back from a failed one. */
    method Probe(watch: Observation<C>) returns (step: Probed, woke: nat)
      requires Valid() && applying && View() == InSync(watch.cfg)
      modifies this`disk, this`loaded, this`faults, this`backFaults
      ensures Valid()
      ensures step.Unhealthy? <==> faults > old(faults)
      ensures step.Unhealthy? && step.res.Failed? <==> backFaults > old(backFaults)
      ensures backFaults >= old(backFaults) && faults >= old(faults)
      ensures step.Late? ==> delay > 0 && woke >= delay + timeout + 30000
      ensures !step.Late? && delay > 0 ==> woke >= delay
      ensures step.Late? || step.Healthy? ==> View() == InSync(watch.cfg)
      ensures step.Unhealthy? ==> step.res == RolledBack(Health) || step.res == Failed(Health)
      ensures step.Unhealthy? ==> Observed(watch.prev, watch.cfg, Some(step.res), View())
    {
      woke := 0;
      if delay > 0 {
        woke := Sleep();
        var first := *;      // which of two ready cases the select takes
        if woke >= Budget() && (first || woke < delay) {
          return Late, woke;
        }
      }
      var healthy := *;
      if healthy {
        return Healthy, woke;
      }
      faults := faults + 1;
      var back := RestoreAndReload(watch.prev);
      return Unhealthy(if back then RolledBack(Health) else Failed(Health)), woke;
    }

    /** The background observation; its result is handed to the observer before applyMu is released. A result of
        None (the context ended before the delay was left) reaches no observer, and needs a delay that took longer
        than delay, timeout and thirty seconds together. */
    method ObserveHealth(watch: Observation<C>, commit: Option<bool>)
      returns (res: Option<ApplyResult>, atCommit: Option<Host<C>>, woke: nat)
      requires Valid() && applying && View() == InSync(watch.cfg)
      modifies this
      ensures Valid() && !applying && unlocks == old(unlocks) + 1 && locks == old(locks)
      ensures Observed(watch.prev, watch.cfg, res, View())
      ensures res.None? ==> delay > 0 && woke >= delay + timeout + 30000 && atCommit.None?
      ensures res.Some? && delay > 0 ==> woke >= delay
      ensures res.Some? ==> res.value.RolledBack? || res.value.Failed? || res.value.Confirmed?
      ensures res == Some(Confirmed) ==> commit != Some(false) && (commit.Some? ==> atCommit.Some?)
      ensures config == if res == Some(Confirmed) then Some(watch.cfg) else old(config)
      ensures atCommit.Some? ==> atCommit == Some(InSync(watch.cfg))
      ensures res.Some? && res.value.Failed? <==> backFaults > old(backFaults)
      ensures res.Some? && faults == old(faults) ==>
                res.value == if commit == Some(false) then RolledBack(Commit) else Confirmed
    {
      atCommit := None;
      var step;
      step, woke := Probe(watch);
      match step {
        case Late => res := None;
        case Unhealthy(r) => res := Some(r);
        case Healthy =>
          var r;
          r, atCommit := Settle(watch.cfg, watch.prev, commit);
          res := Some(r);
      }
      Unlock();
    }

    method CompensateRollbackFailure(prev: Files<C>) returns (compensated: bool)
      modifies this`disk, this`loaded, this`faults, this`backFaults
      ensures compensated ==> View() == Host(prev, prev)
      ensures compensated <==> backFaults == old(backFaults)
      ensures faults - old(faults) == backFaults - old(backFaults) >= 0
    {
      compensated := RestoreAndReload(prev);
    }

    /** Reapplies the last confirmed config. */
    method Rollback() returns (res: RollbackResult)
      requires Valid()
      modifies this
      ensures Valid() && applying == old(applying) && config == old(config)
      ensures res.Refused? <==> old(applying)
      ensures res.NoBaseConfig? <==> !old(applying) && old(config).None?
      ensures res.Refused? || res.NoBaseConfig? || res.NoSnapshot? ==> View() == old(View())
      ensures res.Reapplied? ==> old(config).Some? && View() == InSync(old(config).value)
      ensures res.NotReapplied? && res.compensated ==> View() == Host(old(disk), old(disk))
      ensures locks - old(locks) == unlocks - old(unlocks) == if old(applying) then 0 else 1
      ensures faults == old(faults) && !old(applying) && old(config).Some? ==> res.Reapplied?
      ensures res.NoSnapshot? <==> snapFaults > old(snapFaults)
      ensures res.NotReapplied? ==> faults > old(faults) && (res.compensated <==> backFaults == old(backFaults))
      ensures faults >= old(faults) && snapFaults >= old(snapFaults) && backFaults >= old(backFaults)
    {
      var got := TryLock();
      if !got {
        return Refused;
      }
      if config.None? {
        Unlock();
        return NoBaseConfig;
      }
      var snapped, prev := SnapshotCurrent();
      if !snapped {
        Unlock();
        return NoSnapshot;
      }
      var ok := Render(config.value);
      if ok {
        ok := ReloadUnits();
      }
      if !ok {
        var compensated := CompensateRollbackFailure(prev);
        Unlock();
        return NotReapplied(compensated);
      }
      Unlock();
      return Reapplied;
    }
  }
}
