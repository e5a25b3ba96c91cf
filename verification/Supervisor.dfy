/** The supervisor that restarts a crashed listener task at most five times in any sixty seconds. */
module Supervisor {
  const MAX_RESTARTS_PER_WINDOW: nat := 5
  const RESTART_WINDOW: int := 60000     // milliseconds
  const RESTART_BACKOFF: seq<int> := [250, 500, 1000, 2000, 4000]

  // ---------- the sliding window ----------

  // Entries strictly younger than the window at time now.
  function Kept(times: seq<int>, now: int): seq<int> {
    if times == [] then []
    else Kept(times[..|times| - 1], now)
         + if times[|times| - 1] > now - RESTART_WINDOW then [times[|times| - 1]] else []
  }

  lemma {:induction false} KeptTwice(times: seq<int>, earlier: int, now: int)
    requires earlier <= now
    ensures Kept(Kept(times, earlier), now) == Kept(times, now)
  {
    if times != [] {
      var init, last := times[..|times| - 1], times[|times| - 1];
      KeptTwice(init, earlier, now);
      if last > earlier - RESTART_WINDOW {
        KeptSnoc(Kept(init, earlier), last, now);
      } else {
        assert Kept(times, earlier) == Kept(init, earlier);
      }
    }
  }

  lemma KeptSnoc(times: seq<int>, t: int, now: int)
    ensures Kept(times + [t], now) == Kept(times, now) + if t > now - RESTART_WINDOW then [t] else []
  {
    assert (times + [t])[..|times|] == times;
  }

  // ---------- what was recorded ----------

  // A crash, and whether it was answered with a restart.
  datatype Crash = Crash(time: int, restarted: bool)

  function Times(history: seq<Crash>): seq<int> {
    if history == [] then [] else Times(history[..|history| - 1]) + [history[|history| - 1].time]
  }

  // The clock never went back.
  predicate Ordered(history: seq<Crash>) {
    forall i, j :: 0 <= i <= j < |history| ==> history[i].time <= history[j].time
  }

  // Each crash was answered with a restart exactly when at most five crashes, itself included, stood in the
  // window that ended with it.
  predicate Judged(history: seq<Crash>) {
    history == []
    || (var n := |history| - 1;
        && Judged(history[..n])
        && history[n].restarted == (|Kept(Times(history), history[n].time)| <= MAX_RESTARTS_PER_WINDOW))
  }

  predicate AnyRefused(history: seq<Crash>) {
    history != [] && (!history[|history| - 1].restarted || AnyRefused(history[..|history| - 1]))
  }

  // Restarts inside the window that ends at t.
  function RestartsWithin(history: seq<Crash>, t: int): nat {
    if history == [] then 0
    else
      var c := history[|history| - 1];
      RestartsWithin(history[..|history| - 1], t)
      + if c.restarted && t - RESTART_WINDOW < c.time <= t then 1 else 0
  }

  lemma {:induction false} RestartsAreKept(history: seq<Crash>, t: int, last: int)
    requires last <= t && forall c :: c in history ==> c.time <= last
    ensures RestartsWithin(history, t) <= |Kept(Times(history), last)|
  {
    if history != [] {
      var init, c := history[..|history| - 1], history[|history| - 1];
      assert c in history && forall d :: d in init ==> d in history;
      RestartsAreKept(init, t, last);
      KeptSnoc(Times(init), c.time, last);
    }
  }

  /** No window of sixty seconds, wherever it ends, holds more than five restarts. */
  lemma {:induction false} NoWindowOverfull(history: seq<Crash>, t: int)
    requires Ordered(history) && Judged(history)
    ensures RestartsWithin(history, t) <= MAX_RESTARTS_PER_WINDOW
  {
    if history != [] {
      var n := |history| - 1;
      var c := history[n];
      if c.restarted && t - RESTART_WINDOW < c.time <= t {
        RestartsAreKept(history, t, c.time);
      } else {
        NoWindowOverfull(history[..n], t);
      }
    }
  }

  // In a history in order the window holds k crashes exactly when the k-th from the end is in it.
  lemma {:induction false} KeptFromTheEnd(history: seq<Crash>, now: int, k: nat)
    requires Ordered(history)
    ensures |Kept(Times(history), now)| >= k
            <==> |history| >= k && (k > 0 ==> history[|history| - k].time > now - 60000)
  {
    if history != [] {
      var n := |history| - 1;
      var init := history[..n];
      KeptSnoc(Times(init), history[n].time, now);
      if history[n].time > now - 60000 && k > 0 {
        KeptFromTheEnd(init, now, k - 1);
      } else {
        KeptFromTheEnd(init, now, k);
      }
    }
  }

  /** A crash is answered with a restart exactly when the fifth before it is sixty seconds old or there are not that
      many; so any six restarts span at least sixty seconds, and a refusal means five crashes in less. */
  lemma {:induction false} JudgedExactly(history: seq<Crash>, j: nat)
    requires Ordered(history) && Judged(history) && j < |history|
    ensures history[j].restarted <==> j < 5 || history[j].time - history[j - 5].time >= 60000
  {
    var n := |history| - 1;
    if j < n {
      JudgedExactly(history[..n], j);
    } else {
      KeptFromTheEnd(history, history[n].time, 6);
    }
  }

  // The wait before the k-th restart of a run, in milliseconds.
  function Backoff(k: nat): int {
    match k
    case 0 => 250
    case 1 => 500
    case 2 => 1000
    case 3 => 2000
    case _ => 4000
  }

  // ---------- the object ----------

  // One run of the supervised task: how it ended, when a crash was recorded, and whether the context ended in the backoff.
  datatype End = Returned | Crashed
  datatype Attempt = Attempt(end: End, contextDone: bool, time: int, doneInBackoff: bool)

  datatype Outcome = StillRunning | ContextDone | Finished | GaveUp

  predicate Ends(a: Attempt, end: End) {
    a.end == end && !a.contextDone
  }

  class Supervisor {
    var restarts: seq<int>
    var givenUp: bool
    var giveUpCalls: nat
    ghost var history: seq<Crash>

    ghost predicate WindowOk()
      reads this`restarts, this`history
    {
      && Ordered(history) && Judged(history)
      && restarts == (if history == [] then [] else Kept(Times(history), history[|history| - 1].time))
    }

    ghost predicate Valid()
      reads this
    {
      && WindowOk()
      && giveUpCalls == (if givenUp then 1 else 0)
      && givenUp == AnyRefused(history)
    }

    constructor ()
      ensures Valid() && history == [] && !givenUp
    {
      restarts, givenUp, giveUpCalls := [], false, 0;
      history := [];
    }

    ghost predicate NotBefore(now: int)
      reads this`history
    {
      history == [] || history[|history| - 1].time <= now
    }

    /** Drops the entries that have left the window. */
    method Evict(times: seq<int>, now: int) returns (kept: seq<int>)
      ensures kept == Kept(times, now)
    {
      var cutoff := now - RESTART_WINDOW;
      kept := [];
      for i := 0 to |times|
        invariant kept == Kept(times[..i], now)
      {
        KeptSnoc(times[..i], times[i], now);
        assert times[..i + 1] == times[..i] + [times[i]];
        if times[i] > cutoff {
          kept := kept + [times[i]];
        }
      }
      assert times[..|times|] == times;
    }

    /** Allows a restart exactly when the window that ends now, this crash included, holds at most five crashes. */
    method RecordRestart(now: int) returns (ok: bool)
      requires WindowOk() && NotBefore(now)
      modifies this`restarts, this`history
      ensures history == old(history) + [Crash(now, ok)]
      ensures WindowOk()
      ensures ok <==> |Kept(Times(old(history)), now)| < MAX_RESTARTS_PER_WINDOW
      ensures ok <==> |old(history)| < 5 || now - old(history)[|old(history)| - 5].time >= 60000
    {
      KeptFromTheEnd(history, now, 5);
      var kept := Evict(restarts, now);
      ghost var times := Times(history);
      if history != [] {
        KeptTwice(times, history[|history| - 1].time, now);
      }
      kept := kept + [now];
      restarts := kept;
      ok := |restarts| <= MAX_RESTARTS_PER_WINDOW;
      KeptSnoc(times, now, now);
      Appended(history, Crash(now, ok));
      assert |Kept(times, now) + [now]| == |Kept(times, now)| + 1;
      history := history + [Crash(now, ok)];
    }

    /** Runs the supervised task through the attempts: every crash but possibly the last is answered with a restart after its
        backoff, the last is not exactly when the supervisor gave up, and the callback runs once in the object's
        whole life. */
    method Run(attempts: seq<Attempt>) returns (out: Outcome, waits: seq<int>)
      requires Valid()
      requires forall i :: 0 <= i < |attempts| ==> NotBefore(attempts[i].time)
      requires forall i, j :: 0 <= i <= j < |attempts| ==> attempts[i].time <= attempts[j].time
      modifies this
      ensures Valid()
      ensures old(history) <= history
      ensures out.GaveUp? <==>
                |history| > |old(history)| && !history[|history| - 1].restarted
      ensures forall k :: |old(history)| <= k < |history| - 1 ==> history[k].restarted
      ensures giveUpCalls == old(giveUpCalls) + if out.GaveUp? && !old(givenUp) then 1 else 0
      ensures givenUp == (old(givenUp) || out.GaveUp?)
      ensures |waits| == |history| - |old(history)| - if out.GaveUp? then 1 else 0
      ensures forall k :: 0 <= k < |waits| ==> waits[k] == Backoff(k)
      ensures |history| - |old(history)| <= |attempts|
      ensures forall k :: |old(history)| <= k < |history| ==> history[k].time == attempts[k - |old(history)|].time
      ensures out.StillRunning? ==> |waits| == |attempts|
      ensures out.Finished? ==> |waits| < |attempts| && Ends(attempts[|waits|], Returned)
      ensures out.GaveUp? ==> |waits| < |attempts| && Ends(attempts[|waits|], Crashed)
      ensures out.ContextDone? ==>
                (|waits| < |attempts| && attempts[|waits|].contextDone)
                || (0 < |waits| <= |attempts| && attempts[|waits| - 1].doneInBackoff)
    {
      waits := [];
      var attempt := 0;
      hide WindowOk, Kept, Times, AnyRefused;
      for i := 0 to |attempts|
        invariant Valid() && attempt == i && |waits| == i == |history| - |old(history)|
        invariant givenUp == old(givenUp) && giveUpCalls == old(giveUpCalls)
        invariant old(history) <= history
        invariant forall k :: |old(history)| <= k < |history| ==> history[k].restarted
        invariant forall j :: i <= j < |attempts| ==> NotBefore(attempts[j].time)
        invariant forall k :: |old(history)| <= k < |history| ==> history[k].time == attempts[k - |old(history)|].time
        invariant forall k :: 0 <= k < |waits| ==> waits[k] == Backoff(k)
      {
        var a := attempts[i];
        if a.contextDone {
          return ContextDone, waits;
        }
        if a.end.Returned? {
          return Finished, waits;
        }
        ghost var before := history;
        var ok := RecordRestart(a.time);
        RefusedSnoc(before, Crash(a.time, ok));
        if !ok {
          var already := givenUp;
          givenUp := true;
          if !already {
            giveUpCalls := giveUpCalls + 1;
          }
          return GaveUp, waits;
        }
        var backoff := RESTART_BACKOFF[if attempt < |RESTART_BACKOFF| - 1 then attempt else |RESTART_BACKOFF| - 1];
        waits := waits + [backoff];
        if a.doneInBackoff {
          return ContextDone, waits;
        }
        attempt := attempt + 1;
      }
      return StillRunning, waits;
    }
  }

  lemma RefusedSnoc(history: seq<Crash>, c: Crash)
    ensures AnyRefused(history + [c]) == (!c.restarted || AnyRefused(history))
  {
    assert (history + [c])[..|history|] == history;
  }

  lemma Appended(history: seq<Crash>, c: Crash)
    requires Ordered(history) && Judged(history)
    requires history == [] || history[|history| - 1].time <= c.time
    requires c.restarted == (|Kept(Times(history) + [c.time], c.time)| <= MAX_RESTARTS_PER_WINDOW)
    ensures Ordered(history + [c]) && Judged(history + [c]) && Times(history + [c]) == Times(history) + [c.time]
  {
    var h := history + [c];
    assert h[..|history|] == history;
  }

  /** Over the whole life of a supervisor, through any number of runs: no window holds more than five restarts, any six
      crashes in a row that end with a restart span at least sixty seconds, and the give-up callback has run exactly
      once if it ever gave up, and not otherwise. */
  lemma LifeOfASupervisor(sv: Supervisor, t: int)
    requires sv.Valid()
    ensures RestartsWithin(sv.history, t) <= 5
    ensures forall j :: 0 <= j < |sv.history| ==>
                          (sv.history[j].restarted <==> j < 5 || sv.history[j].time - sv.history[j - 5].time >= 60000)
    ensures sv.giveUpCalls == if exists j :: 0 <= j < |sv.history| && !sv.history[j].restarted then 1 else 0
  {
    NoWindowOverfull(sv.history, t);
    forall j | 0 <= j < |sv.history|
      ensures sv.history[j].restarted <==> j < 5 || sv.history[j].time - sv.history[j - 5].time >= 60000
    {
      JudgedExactly(sv.history, j);
    }
    RefusedSomewhere(sv.history);
  }

  lemma {:induction false} RefusedSomewhere(history: seq<Crash>)
    ensures AnyRefused(history) <==> exists j :: 0 <= j < |history| && !history[j].restarted
  {
    if history != [] {
      var n := |history| - 1;
      RefusedSomewhere(history[..n]);
      assert forall j :: 0 <= j < n ==> history[..n][j] == history[j];
    }
  }
}
