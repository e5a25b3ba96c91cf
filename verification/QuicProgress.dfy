/** No goroutine of the QUIC forwarder is ever stuck: the locks are held by somebody who can go on, and everybody else
    can step or waits for somebody who has not finished. */
module QuicProgress {
  import opened Text
  import opened QuicAccount
  import opened QuicMachine

  // ---------- the locks are held by somebody ----------

  ghost predicate MuHeld(s: System) {
    s.f.mu.Some? ==> s.f.mu.value in s.procs && HoldsMu(s.procs[s.f.mu.value])
  }

  ghost predicate StartHeld(s: System) {
    s.f.smu.Some? ==> s.f.smu.value in s.procs && s.procs[s.f.smu.value].Starting?
  }

  // A step of p leaves everyone else where it was.
  predicate OnlyMoves(s: System, s': System, p: nat) {
    forall h :: h in s.procs && h != p ==> h in s'.procs && s'.procs[h] == s.procs[h]
  }

  lemma OthersStay(c: Caps, s: System, a: Action)
    requires Enabled(s, a)
    ensures OnlyMoves(s, Do(c, s, a), a.p)
  {
    hide Ranged, Admits, Reserve, ReleaseCount, Detach, Holds, PendingIp, RemovePending, Store, PendingReleased, InLoops,
         InWorkers;
  }

  lemma MuMoves(c: Caps, s: System, a: Action)
    requires Enabled(s, a) && MuHeld(s)
    ensures var f' := Do(c, s, a).f;
            || f'.mu.None?
            || (f'.mu == Some(a.p) && a.p in Do(c, s, a).procs && HoldsMu(Do(c, s, a).procs[a.p]))
            || (f'.mu == s.f.mu && s.f.mu != Some(a.p))
  {
    hide Ranged, Admits, Reserve, ReleaseCount, Detach, Holds, PendingIp, RemovePending, Store, PendingReleased, InLoops,
         InWorkers;
  }

  lemma StartMoves(c: Caps, s: System, a: Action)
    requires Enabled(s, a) && StartHeld(s)
    ensures var f' := Do(c, s, a).f;
            || f'.smu.None?
            || (f'.smu == Some(a.p) && a.p in Do(c, s, a).procs && Do(c, s, a).procs[a.p].Starting?)
            || (f'.smu == s.f.smu && s.f.smu != Some(a.p))
  {
    hide Ranged, Admits, Reserve, ReleaseCount, Detach, Holds, PendingIp, RemovePending, Store, PendingReleased, InLoops,
         InWorkers;
  }

  lemma {:induction false} LocksAreHeld(c: Caps, run: seq<System>, i: nat)
    requires Run(c, run) && i < |run|
    ensures MuHeld(run[i]) && StartHeld(run[i])
  {
    hide Enabled, Do;
    if i > 0 {
      LocksAreHeld(c, run, i - 1);
      var a := StepOf(c, run, i);
      OthersStay(c, run[i - 1], a);
      MuMoves(c, run[i - 1], a);
      StartMoves(c, run[i - 1], a);
    }
  }

  // ---------- who can go on ----------

  // An enabled step that takes the goroutine that makes it somewhere else.
  ghost predicate MovesBy(c: Caps, s: System, a: Action) {
    && a.p in s.procs && Enabled(s, a)
    && a.p in Do(c, s, a).procs && Do(c, s, a).procs[a.p] != s.procs[a.p]
  }

  lemma {:induction false} Bound(keys: set<nat>) returns (n: nat)
    ensures forall k :: k in keys ==> k < n
  {
    n := 0;
    if k :| k in keys {
      var m := Bound(keys - {k});
      n := if m > k then m else k + 1;
      assert forall j :: j in keys ==> j == k || j in keys - {k};
    }
  }

  // The step a goroutine takes when no lock, and nobody else, is in its way.
  lemma LoopStep(c: Caps, s: System, p: nat) returns (a: Action)
    requires p in s.procs
    requires match s.procs[p] {
               case Starting => true
               case ReadLoop => s.books.closed
               case Reserving(_, _) => true
               case Reserved(_, _) => true
               case Collector(stale) => stale != {} || s.books.closed
               case _ => false
             }
    ensures a.p == p && MovesBy(c, s, a)
  {
    hide Admits, Reserve, Detach, Holds;
    var n := Bound(s.procs.Keys);
    match s.procs[p] {
      case Starting => a := StartLoops(p, n, n + 1);
      case ReadLoop => a := ReadExit(p);
      case Reserving(_, _) => a := EndReserve(p);
      case Reserved(_, _) => a := Spawn(p, n);
      case Collector(stale) =>
        if stale == {} {
          a := CollectorExit(p);
        } else {
          var ref :| ref in stale;
          a := DropIdle(p, ref);
        }
    }
  }

  lemma WorkerStep(c: Caps, s: System, p: nat) returns (a: Action)
    requires p in s.procs
    requires match s.procs[p] {
               case Setup(_, _) => true
               case Promoting(_, _) => true
               case Relay(_, _) => true
               case Abandon(_, _) => s.f.mu.None?
               case Releasing(_, next) => s.f.mu.None? && !next.Releasing?
               case _ => false
             }
    ensures a.p == p && MovesBy(c, s, a)
  {
    hide ReleaseCount, Detach, Holds, PendingIp, RemovePending, Store, PendingReleased;
    match s.procs[p] {
      case Setup(_, _) => a := SetupFails(p);
      case Promoting(_, _) => a := EndPromote(p);
      case Relay(_, _) => a := RelayEnds(p);
      case Abandon(_, _) => a := Undo(p);
      case Releasing(_, _) => a := Release(p);
    }
  }

  lemma CloserStep(c: Caps, s: System, p: nat) returns (a: Action)
    requires p in s.procs
    requires match s.procs[p] {
               case Closing => s.f.smu.None?
               case Stopping => s.f.mu.None?
               case Snapping(_) => true
               case Dropping(_) => true
               case _ => false
             }
    ensures a.p == p && MovesBy(c, s, a)
  {
    hide Detach, Holds;
    match s.procs[p] {
      case Closing => a := StopListener(p);
      case Stopping => a := BeginSnapshot(p);
      case Snapping(refs) =>
        if Ranged(s.books.sessions, refs) {
          a := EndSnapshot(p);
        } else {
          var k :| k in s.books.sessions && Ref(k, s.books.sessions[k]) !in refs;
          a := Visit(p, k);
          assert Ref(k, s.books.sessions[k]) in refs + {Ref(k, s.books.sessions[k])};
        }
      case Dropping(refs) =>
        if refs == {} {
          a := AllDropped(p);
        } else {
          var ref :| ref in refs;
          a := DropListed(p, ref);
        }
    }
  }

  // ---------- nobody is stuck ----------

  ghost predicate SomebodyMoves(c: Caps, s: System) {
    exists a: Action :: MovesBy(c, s, a)
  }

  // It stands in front of a lock that somebody else holds.
  predicate Blocked(s: System, p: nat) {
    && p in s.procs
    && match s.procs[p] {
         case Abandon(_, _) => s.f.mu.Some?
         case Releasing(_, _) => s.f.mu.Some?
         case Stopping => s.f.mu.Some?
         case Closing => s.f.smu.Some?
         case _ => false
       }
  }

  lemma BlockedButNotAll(c: Caps, s: System, p: nat)
    requires MuHeld(s) && StartHeld(s) && Blocked(s, p)
    ensures SomebodyMoves(c, s)
  {
    hide MovesBy;
    if s.procs[p].Closing? {
      var a := LoopStep(c, s, s.f.smu.value);
    } else {
      var h := s.f.mu.value;
      var a;
      if s.procs[h].Reserving? {
        a := LoopStep(c, s, h);
      } else if s.procs[h].Promoting? {
        a := WorkerStep(c, s, h);
      } else {
        a := CloserStep(c, s, h);
      }
    }
  }

  // Not finished, and not waiting for the loops or the workers.
  predicate Unfinished(s: System, p: nat) {
    p in s.procs && !s.procs[p].Exited? && !s.procs[p].Waiting? && !s.procs[p].Draining?
  }

  lemma EverybodyElse(c: Caps, s: System, p: nat)
    requires MuHeld(s) && StartHeld(s) && Phases(s.books.closed, s.f, s.procs) && s.books.closed
    requires Unfinished(s, p)
    ensures SomebodyMoves(c, s)
  {
    PhaseOf(s, p);
    hide MovesBy, MuHeld, StartHeld, Phases;
    var a;
    if Blocked(s, p) {
      BlockedButNotAll(c, s, p);
    } else {
      match s.procs[p] {
        case Setup(_, _) => a := WorkerStep(c, s, p);
        case Promoting(_, _) => a := WorkerStep(c, s, p);
        case Relay(_, _) => a := WorkerStep(c, s, p);
        case Abandon(_, _) => a := WorkerStep(c, s, p);
        case Releasing(_, _) => a := WorkerStep(c, s, p);
        case Closing => a := CloserStep(c, s, p);
        case Stopping => a := CloserStep(c, s, p);
        case Snapping(_) => a := CloserStep(c, s, p);
        case Dropping(_) => a := CloserStep(c, s, p);
        case _ => a := LoopStep(c, s, p);
      }
    }
  }

  lemma LoopsOverOrNot(c: Caps, s: System, p: nat) returns (q: nat)
    requires p in s.procs && s.procs[p].Waiting?
    ensures SomebodyMoves(c, s) || Unfinished(s, q)
  {
    q := p;
    if r :| r in s.procs && InLoops(s.procs[r]) {
      q := r;
    } else {
      assert MovesBy(c, s, LoopsOver(p));
    }
  }

  lemma WorkersOverOrNot(c: Caps, s: System, p: nat) returns (q: nat)
    requires p in s.procs && s.procs[p].Draining?
    ensures SomebodyMoves(c, s) || Unfinished(s, q)
  {
    q := p;
    if r :| r in s.procs && InWorkers(s.procs[r]) {
      q := r;
    } else {
      assert MovesBy(c, s, Finish(p));
    }
  }

  lemma PhasesHold(c: Caps, run: seq<System>, i: nat)
    requires Run(c, run) && i < |run|
    ensures Phases(run[i].books.closed, run[i].f, run[i].procs)
  {
    hide Run, Balanced, CapsHold, KeysApart, Owners, Sessions, Phases;
    RunInv(c, run, i);
  }

  /** Once closed is set, and as long as any goroutine has not finished, some goroutine can take a step that takes it
      somewhere else: shutdown never stands still. */
  lemma ShutdownNeverStuck(c: Caps, run: seq<System>, i: nat, p: nat)
    requires Run(c, run) && i < |run| && run[i].books.closed
    requires p in run[i].procs && !run[i].procs[p].Exited?
    ensures SomebodyMoves(c, run[i])
  {
    LocksAreHeld(c, run, i);
    PhasesHold(c, run, i);
    hide Run, MuHeld, StartHeld, Phases, SomebodyMoves;
    var s := run[i];
    var q := p;
    if s.procs[p].Waiting? {
      q := LoopsOverOrNot(c, s, p);
    } else if s.procs[p].Draining? {
      q := WorkersOverOrNot(c, s, p);
    }
    if !SomebodyMoves(c, s) {
      EverybodyElse(c, s, q);
    }
  }
}
