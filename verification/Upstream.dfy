/** The upstream race: the primary pool at once, the fallback pool after a delay, the first accepted reply wins.
    When a query reports, and what it reports, is up to the network. */
module Upstream {
  import opened Text

  type Milliseconds = int

  const DEFAULT_TIMEOUT: Milliseconds := 8000

  datatype Upstream = Upstream(
    cn: seq<string>, proxy: seq<string>, fallback: seq<string>, timeout: Milliseconds, fallbackDelay: Milliseconds)

  datatype Tier = Primary | Fallback

  // The query sent to the index-th address of a pool.
  datatype Query = Query(tier: Tier, index: nat, addr: string)

  datatype Report = Reply(rcode: nat, answer: nat) | Error(cause: string) | Nothing

  datatype Failure = LastError(cause: string) | LastRcode(rcode: nat) | AllFailed | ContextDone

  datatype Outcome =
    | NoUpstream
    | Answered(query: Query, rcode: nat, answer: nat)
    | Exhausted(failure: Failure)
    | TimedOut(failure: Failure)

  // NOERROR, NXDOMAIN, YXDOMAIN, NXRRSET
  predicate IsAuthoritative(rcode: nat) {
    rcode == 0 || rcode == 3 || rcode == 6 || rcode == 8
  }

  function PrimaryFor(u: Upstream, category: string): seq<string> {
    if Lower(category) == "direct" then u.cn else u.proxy
  }

  function Timeout(u: Upstream): Milliseconds {
    if u.timeout <= 0 then DEFAULT_TIMEOUT else u.timeout
  }

  function Delay(u: Upstream): Milliseconds {
    var d := if u.fallbackDelay < 0 then 0 else u.fallbackDelay;
    if d > Timeout(u) then Timeout(u) / 2 else d
  }

  /** The fallback is never due after the deadline, and a delay that was too long is cut to before it. */
  lemma DelayWithinTimeout(u: Upstream)
    ensures 0 <= Delay(u) <= Timeout(u) && Timeout(u) == if u.timeout <= 0 then 8000 else u.timeout
    ensures 0 <= u.fallbackDelay <= Timeout(u) ==> Delay(u) == u.fallbackDelay
    ensures u.fallbackDelay > Timeout(u) ==> Delay(u) < Timeout(u)
    ensures Delay(u) == 0 <==> u.fallbackDelay <= 0 || (u.fallbackDelay > Timeout(u) && Timeout(u) == 1)
  {
  }

  /** The pool of direct names in any case, and of nothing else, is cn. */
  lemma PrimaryExactly(u: Upstream, category: string)
    ensures PrimaryFor(u, category) == if SameButCase(category, "direct") then u.cn else u.proxy
  {
    hide Lower, SameButCase;
    WordExactly(category, "direct");
  }

  // A pool's queries in the order they are fired.
  function InOrder(tier: Tier, pool: seq<string>): (qs: seq<Query>)
    ensures |qs| == |pool| && forall i :: 0 <= i < |pool| ==> qs[i] == Query(tier, i, pool[i])
  {
    seq(|pool|, i requires 0 <= i < |pool| => Query(tier, i, pool[i]))
  }

  function CauseOf(r: Report, last: Option<Failure>): Option<Failure> {
    match r
    case Error(cause) => Some(LastError(cause))
    case Reply(rcode, _) => Some(LastRcode(rcode))
    case Nothing => last
  }

  datatype Pools = Pools(primary: seq<string>, fallback: seq<string>)

  // The race so far: every query fired, in order and as often as it was, those still to report, those whose report was
  // read, in that order, and when the fallback pool was fired.
  datatype Trace = Trace(
    fired: seq<Query>, outstanding: multiset<Query>, reported: seq<Query>,
    fallbackAt: Option<Milliseconds>, expected: nat, seen: nat, now: Milliseconds, cancelled: bool)

  function Firings(p: Pools, fbFired: bool): (qs: seq<Query>)
    ensures |qs| == |p.primary| + if fbFired then |p.fallback| else 0
  {
    InOrder(Primary, p.primary) + (if fbFired then InOrder(Fallback, p.fallback) else [])
  }

  // The primary pool is in from the start, each pool at most once.
  ghost predicate Consistent(t: Trace, p: Pools, fbStarted: bool) {
    && t.fired == Firings(p, t.fallbackAt.Some?)
    && multiset(t.fired) == t.outstanding + multiset(t.reported)
    && t.seen == |t.reported|
    && t.expected == |p.primary| + (if fbStarted then |p.fallback| else 0)
    && (fbStarted <==> t.fallbackAt.Some? || p.fallback == [])
    && t.now >= 0
  }

  /** No query is ever fired twice, and each goes to the address of its place in its pool. */
  lemma FiredAtMostOnce(t: Trace, p: Pools, fbStarted: bool)
    requires Consistent(t, p, fbStarted)
    ensures forall i, j :: 0 <= i < j < |t.fired| ==> t.fired[i] != t.fired[j]
    ensures forall i :: 0 <= i < |t.fired| ==>
                          t.fired[i] == if i < |p.primary| then Query(Primary, i, p.primary[i])
                                        else Query(Fallback, i - |p.primary|, p.fallback[i - |p.primary|])
  {
  }

  /** The channel holds every result that is ever sent, so no query blocks after the race is over; and once as many
      have been read as were expected, with the fallback in, every query of both pools has reported. */
  lemma CapacitySuffices(t: Trace, p: Pools, fbStarted: bool)
    requires Consistent(t, p, fbStarted)
    ensures t.seen <= |t.fired| <= |p.primary| + |p.fallback|
    ensures |t.outstanding| + t.seen == |t.fired|
    ensures fbStarted && t.seen >= t.expected ==>
              t.outstanding == multiset{} && multiset(t.reported) == multiset(Firings(p, true))
  {
    assert |t.outstanding + multiset(t.reported)| == |t.outstanding| + |multiset(t.reported)|;
    assert |multiset(t.fired)| == |t.fired|;
    if fbStarted && t.seen >= t.expected {
      assert |t.outstanding| == 0;
      assert t.fired == Firings(p, true);
    }
  }

  lemma OneMore(before: seq<Query>, tier: Tier, pool: seq<string>, i: nat)
    requires i < |pool|
    ensures before + InOrder(tier, pool[..i]) + [Query(tier, i, pool[i])] == before + InOrder(tier, pool[..i + 1])
    ensures multiset(InOrder(tier, pool[..i])) + multiset{Query(tier, i, pool[i])}
            == multiset(InOrder(tier, pool[..i + 1]))
  {
    assert InOrder(tier, pool[..i + 1]) == InOrder(tier, pool[..i]) + [Query(tier, i, pool[i])];
  }

  /** One query per address of the pool. */
  method Fire(t: Trace, tier: Tier, pool: seq<string>) returns (t': Trace)
    ensures t' == t.(fired := t.fired + InOrder(tier, pool), outstanding := t.outstanding + multiset(InOrder(tier, pool)))
  {
    t' := t;
    assert InOrder(tier, pool[..0]) == [];
    hide InOrder;
    for i := 0 to |pool|
      invariant t' == t.(fired := t.fired + InOrder(tier, pool[..i]),
                         outstanding := t.outstanding + multiset(InOrder(tier, pool[..i])))
    {
      var q := Query(tier, i, pool[i]);
      OneMore(t.fired, tier, pool, i);
      t' := t'.(fired := t'.fired + [q], outstanding := t'.outstanding + multiset{q});
    }
    assert pool[..|pool|] == pool;
  }

  // Never before its delay, and at once when there is none.
  ghost predicate FallbackOnTime(t: Trace, p: Pools, delay: Milliseconds) {
    && (t.fallbackAt.Some? ==> delay <= t.fallbackAt.value <= t.now)
    && (delay == 0 && p.fallback != [] ==> t.fallbackAt == Some(0))
  }

  method SomeTime() returns (later: nat) {
    later := *;
  }

  method WaitUntil(t: Trace, due: Milliseconds, p: Pools, fbStarted: bool, delay: Milliseconds) returns (t': Trace)
    requires Consistent(t, p, fbStarted) && FallbackOnTime(t, p, delay)
    ensures Consistent(t', p, fbStarted) && FallbackOnTime(t', p, delay)
    ensures t'.now >= t.now && t'.now >= due && t' == t.(now := t'.now)
  {
    hide InOrder, Firings;
    var later := SomeTime();
    t' := t.(now := (if t.now < due then due else t.now) + later);
  }

  lemma Cancelled(t: Trace, p: Pools, fbStarted: bool, delay: Milliseconds)
    requires Consistent(t, p, fbStarted) && FallbackOnTime(t, p, delay)
    ensures Consistent(t.(cancelled := true), p, fbStarted)
    ensures FallbackOnTime(t.(cancelled := true), p, delay)
  {
    hide InOrder, Firings;
  }

  // A reply with one of the four rcodes that settle a question.
  predicate Settles(r: Report) {
    r.Reply? && r.rcode in {0, 3, 6, 8}
  }

  ghost predicate NoneSettles(reported: seq<Query>, report: Query -> Report) {
    forall i :: 0 <= i < |reported| ==> !Settles(report(reported[i]))
  }

  // Why the race failed, as far as a query has said: the last error or refusing reply that was read.
  ghost predicate LastWord(reported: seq<Query>, report: Query -> Report, last: Option<Failure>) {
    match last
    case None => forall i :: 0 <= i < |reported| ==> report(reported[i]).Nothing?
    case Some(failure) =>
      exists k :: 0 <= k < |reported| && Says(report(reported[k]), failure)
                  && forall i :: k < i < |reported| ==> report(reported[i]).Nothing?
  }

  predicate Says(r: Report, failure: Failure) {
    match failure
    case LastError(cause) => r == Error(cause)
    case LastRcode(rcode) => r.Reply? && r.rcode == rcode
    case _ => false
  }

  // The failure a race ends with when nothing more is known than this.
  ghost predicate FailsBy(reported: seq<Query>, report: Query -> Report, failure: Failure, unknown: Failure) {
    LastWord(reported, report, if failure == unknown then None else Some(failure))
  }

  lemma ReadOne(reported: seq<Query>, q: Query, report: Query -> Report, last: Option<Failure>)
    requires NoneSettles(reported, report) && LastWord(reported, report, last)
    ensures !Settles(report(q)) ==>
              NoneSettles(reported + [q], report) && LastWord(reported + [q], report, CauseOf(report(q), last))
  {
    var more := reported + [q];
    assert more[|reported|] == q && forall i :: 0 <= i < |reported| ==> more[i] == reported[i];
    if report(q).Nothing? && last.Some? {
      var k :| 0 <= k < |reported| && Says(report(reported[k]), last.value)
               && forall i :: k < i < |reported| ==> report(reported[i]).Nothing?;
      assert Says(report(more[k]), last.value);
    }
  }

  // One value off the result channel: from a query that was fired and had not reported yet.
  method Receive(t: Trace, p: Pools, fbStarted: bool, delay: Milliseconds) returns (q: Query, t': Trace)
    requires Consistent(t, p, fbStarted) && FallbackOnTime(t, p, delay)
    requires t.outstanding != multiset{}
    ensures q in t.outstanding
    ensures Consistent(t', p, fbStarted) && FallbackOnTime(t', p, delay)
    ensures t' == t.(outstanding := t.outstanding - multiset{q}, reported := t.reported + [q], seen := t.seen + 1)
    ensures |t'.outstanding| < |t.outstanding|
  {
    hide InOrder, Firings;
    q :| q in t.outstanding;
    t' := t.(outstanding := t.outstanding - multiset{q}, reported := t.reported + [q], seen := t.seen + 1);
  }

  /** And what it says: a reply that settles the race, or one more reason for it to fail. */
  method Read(t: Trace, p: Pools, fbStarted: bool, delay: Milliseconds, report: Query -> Report, last: Option<Failure>)
    returns (q: Query, t': Trace, last': Option<Failure>)
    requires Consistent(t, p, fbStarted) && FallbackOnTime(t, p, delay) && t.outstanding != multiset{}
    requires NoneSettles(t.reported, report) && LastWord(t.reported, report, last)
    ensures Consistent(t', p, fbStarted) && FallbackOnTime(t', p, delay)
    ensures t'.reported == t.reported + [q] && |t'.outstanding| < |t.outstanding| && t'.expected == t.expected
    ensures !Settles(report(q)) ==> NoneSettles(t'.reported, report) && LastWord(t'.reported, report, last')
  {
    hide Consistent, FallbackOnTime, NoneSettles, LastWord, Settles;
    q, t' := Receive(t, p, fbStarted, delay);
    ReadOne(t.reported, q, report, last);
    last' := CauseOf(report(q), last);
  }

  lemma Unheard(reported: seq<Query>, report: Query -> Report, last: Option<Failure>, unknown: Failure)
    requires LastWord(reported, report, last) && (unknown.AllFailed? || unknown.ContextDone?)
    ensures FailsBy(reported, report, if last.None? then unknown else last.value, unknown)
  {
  }

  method Start(u: Upstream, p: Pools) returns (t: Trace, fbStarted: bool)
    requires p.primary != [] || p.fallback != []
    ensures Consistent(t, p, fbStarted) && FallbackOnTime(t, p, Delay(u))
    ensures t.reported == [] && !t.cancelled
    ensures fbStarted <==> p.fallback == [] || Delay(u) == 0
  {
    t := Trace([], multiset{}, [], None, 0, 0, 0, false);
    t := Fire(t, Primary, p.primary);
    assert [] + InOrder(Primary, p.primary) == InOrder(Primary, p.primary);
    fbStarted := |p.fallback| == 0;
    if Delay(u) == 0 && !fbStarted {
      t := Fire(t, Fallback, p.fallback);
      t := t.(fallbackAt := Some(t.now));
      fbStarted := true;
    }
    t := t.(expected := if fbStarted then |p.primary| + |p.fallback| else |p.primary|);
    assert t.fired == Firings(p, t.fallbackAt.Some?);
  }

  // The timer's case, when the fallback is not in already.
  method FallbackDue(t: Trace, p: Pools, delay: Milliseconds) returns (t': Trace)
    requires Consistent(t, p, false) && FallbackOnTime(t, p, delay) && t.now >= delay
    ensures Consistent(t', p, true) && FallbackOnTime(t', p, delay)
    ensures t'.reported == t.reported && t'.now == t.now && t'.cancelled == t.cancelled
    ensures |t'.outstanding| == |t.outstanding| + |p.fallback|
  {
    assert |t.outstanding + multiset(InOrder(Fallback, p.fallback))| == |t.outstanding| + |p.fallback|;
    t' := Fire(t, Fallback, p.fallback);
    t' := t'.(fallbackAt := Some(t.now), expected := |p.primary| + |p.fallback|);
    assert t'.fired == Firings(p, true);
  }

  // The pools raced for a category.
  function PoolsFor(u: Upstream, category: string): Pools {
    Pools(PrimaryFor(u, category), u.fallback)
  }

  /** Returns only an accepted reply of a fired query, the last one read; fails only at the deadline or a cancellation, or
      when every query of both pools has reported without one, and then by the last word it heard. Each pool is fired at
      most once, the fallback not before its delay, and at the start when there is no delay. The primary pool is cn for
      direct in any case, else proxy. report is what each query would answer. */
  method QueryRace(u: Upstream, category: string, report: Query -> Report)
    returns (out: Outcome, t: Trace, fbStarted: bool)
    ensures PoolsFor(u, category).primary == if SameButCase(category, "direct") then u.cn else u.proxy
    ensures out.NoUpstream? <==> PoolsFor(u, category).primary == [] && u.fallback == []
    ensures !out.NoUpstream? ==>
              && Consistent(t, PoolsFor(u, category), fbStarted)
              && FallbackOnTime(t, PoolsFor(u, category), Delay(u))
              && Ends(out, t, PoolsFor(u, category), if u.timeout <= 0 then 8000 else u.timeout, report)
  {
    PrimaryExactly(u, category);
    hide SameButCase, Consistent, FallbackOnTime, PrimaryFor, Ends;
    var p := PoolsFor(u, category);
    if |p.primary| == 0 && |p.fallback| == 0 {
      return NoUpstream, Trace([], multiset{}, [], None, 0, 0, 0, false), true;
    }
    t, fbStarted := Start(u, p);
    out, t, fbStarted := Race(t, p, fbStarted, Delay(u), Timeout(u), report);
  }

  ghost predicate Ends(out: Outcome, t: Trace, p: Pools, deadline: Milliseconds, report: Query -> Report) {
    match out
    case NoUpstream => false
    case Answered(query, rcode, answer) =>
      && |t.reported| > 0 && t.reported[|t.reported| - 1] == query
      && report(query) == Reply(rcode, answer) && rcode in {0, 3, 6, 8}
      && NoneSettles(t.reported[..|t.reported| - 1], report)
    case Exhausted(failure) =>
      && multiset(t.reported) == multiset(Firings(p, true))
      && NoneSettles(t.reported, report) && FailsBy(t.reported, report, failure, AllFailed)
    case TimedOut(failure) =>
      && (t.cancelled || t.now >= deadline)
      && NoneSettles(t.reported, report) && FailsBy(t.reported, report, failure, ContextDone)
  }

  // The select loop.
  method Race(first: Trace, p: Pools, started: bool, delay: Milliseconds, deadline: Milliseconds, report: Query -> Report)
    returns (out: Outcome, t: Trace, fbStarted: bool)
    requires Consistent(first, p, started) && FallbackOnTime(first, p, delay) && first.reported == []
    ensures !out.NoUpstream? && Consistent(t, p, fbStarted) && FallbackOnTime(t, p, delay)
    ensures Ends(out, t, p, deadline, report)
  {
    t, fbStarted := first, started;
    var timerRunning := true;
    var last: Option<Failure> := None;
    hide Consistent, Firings, NoneSettles, FallbackOnTime, LastWord, FailsBy;
    NothingRead(report);
    while true
      invariant Consistent(t, p, fbStarted) && FallbackOnTime(t, p, delay)
      invariant NoneSettles(t.reported, report) && LastWord(t.reported, report, last) && (timerRunning || fbStarted)
      decreases |t.outstanding| + (if fbStarted then 0 else |p.fallback|), timerRunning
    {
      var pick, fires := *, *;
      if pick && t.outstanding != multiset{} {
        var q;
        ghost var before := t.reported;
        q, t, last := Read(t, p, fbStarted, delay, report, last);
        var rep := report(q);
        if rep.Reply? && IsAuthoritative(rep.rcode) {
          assert t.reported[..|t.reported| - 1] == before;
          return Answered(q, rep.rcode, rep.answer), t, fbStarted;
        }
        if fbStarted && t.seen >= t.expected {
          CapacitySuffices(t, p, fbStarted);
          Unheard(t.reported, report, last, AllFailed);
          return Exhausted(if last.None? then AllFailed else last.value), t, fbStarted;
        }
      } else if fires && timerRunning {
        t := WaitUntil(t, delay, p, fbStarted, delay);
        if !fbStarted {
          t := FallbackDue(t, p, delay);
          fbStarted := true;
        }
        timerRunning := false;
      } else {
        var cancelled := *;
        if cancelled {
          Cancelled(t, p, fbStarted, delay);
          t := t.(cancelled := true);
        } else {
          t := WaitUntil(t, deadline, p, fbStarted, delay);
        }
        Unheard(t.reported, report, last, ContextDone);
        return TimedOut(if last.None? then ContextDone else last.value), t, fbStarted;
      }
    }
  }

  lemma NothingRead(report: Query -> Report)
    ensures NoneSettles([], report) && LastWord([], report, None)
  {
  }
}
