/** Resource accounting of the QUIC forwarder: pending set-ups, live sessions and the counters
    that cap them. Each function is one critical section; the class performs it in place. */
module QuicAccount {

  // A session object; id is its identity, so a replacement for the same client differs.
  datatype Session = Session(id: nat, ip: string)

  datatype Caps = Caps(maxSetups: nat, maxSessions: nat, maxPerIp: nat)

  datatype Account = Account(
    closed: bool,
    pending: map<string, string>,     // client address -> source IP
    sessions: map<string, Session>,   // client address -> session
    reserved: nat,
    perIp: map<string, nat>)

  function PerIp(a: Account, ip: string): nat {
    if ip in a.perIp then a.perIp[ip] else 0
  }

  // A missing entry reads as the empty string.
  function PendingIp(a: Account, key: string): string {
    if key in a.pending then a.pending[key] else ""
  }

  // ---------- critical sections ----------

  // What tryReserveSession checks behind its first test.
  predicate Admits(c: Caps, a: Account, key: string, ip: string) {
    && key !in a.pending && key !in a.sessions
    && |a.pending| < c.maxSetups && a.reserved < c.maxSessions
    && PerIp(a, ip) < c.maxPerIp
  }

  predicate CanReserve(c: Caps, a: Account, key: string, ip: string) {
    !a.closed && key != "" && ip != "" && Admits(c, a, key, ip)
  }

  function Reserve(a: Account, key: string, ip: string): Account {
    a.(pending := a.pending[key := ip], reserved := a.reserved + 1, perIp := a.perIp[ip := PerIp(a, ip) + 1])
  }

  function ReleaseCount(a: Account, ip: string): Account {
    a.(reserved := if a.reserved > 0 then a.reserved - 1 else 0,
       perIp := if PerIp(a, ip) > 1 then a.perIp[ip := PerIp(a, ip) - 1] else a.perIp - {ip})
  }

  function RemovePending(a: Account, key: string): Account {
    a.(pending := a.pending - {key})
  }

  function Store(a: Account, key: string, sess: Session): Account {
    a.(sessions := a.sessions[key := sess])
  }

  predicate Promotes(a: Account, key: string, ip: string) {
    PendingIp(a, key) == ip && !a.closed
  }

  function Promote(a: Account, key: string, ip: string, sess: Session): Account {
    if PendingIp(a, key) != ip then a
    else if a.closed then ReleaseCount(RemovePending(a, key), ip)
    else Store(RemovePending(a, key), key, sess)
  }

  function PendingReleased(a: Account, key: string, ip: string): Account {
    if PendingIp(a, key) != ip then a else ReleaseCount(RemovePending(a, key), ip)
  }

  predicate Holds(a: Account, key: string, sess: Session) {
    key in a.sessions && a.sessions[key] == sess
  }

  // CompareAndDelete on the session map.
  function Detach(a: Account, key: string, sess: Session): Account {
    if Holds(a, key, sess) then a.(sessions := a.sessions - {key}) else a
  }

  // ---------- counting by address ----------

  function KeysAt<K>(m: map<K, string>, ip: string): set<K> {
    set k | k in m && m[k] == ip
  }

  function CountAt<K>(m: map<K, string>, ip: string): nat {
    |KeysAt(m, ip)|
  }

  function Ips(sessions: map<string, Session>): (r: map<string, string>)
    ensures r.Keys == sessions.Keys && |r| == |sessions|
    ensures forall k :: k in sessions ==> r[k] == sessions[k].ip
  {
    var r := map k | k in sessions :: sessions[k].ip;
    assert r.Keys == sessions.Keys;
    r
  }

  lemma CountAdd<K>(m: map<K, string>, k: K, v: string)
    requires k !in m
    ensures |m[k := v]| == |m| + 1
    ensures forall ip :: CountAt(m[k := v], ip) == CountAt(m, ip) + if ip == v then 1 else 0
  {
    forall ip ensures CountAt(m[k := v], ip) == CountAt(m, ip) + if ip == v then 1 else 0 {
      assert KeysAt(m[k := v], ip) == KeysAt(m, ip) + if ip == v then {k} else {};
    }
  }

  lemma CountRemove<K>(m: map<K, string>, k: K)
    requires k in m
    ensures |m - {k}| == |m| - 1
    ensures forall ip :: CountAt(m - {k}, ip) == CountAt(m, ip) - if ip == m[k] then 1 else 0
  {
    assert m == (m - {k})[k := m[k]];
    CountAdd(m - {k}, k, m[k]);
  }

  lemma CountEmpty<K>(m: map<K, string>)
    requires m == map[]
    ensures forall ip :: CountAt(m, ip) == 0
  {
    forall ip ensures CountAt(m, ip) == 0 {
      assert KeysAt(m, ip) == {};
    }
  }

  lemma CountPositive<K>(m: map<K, string>, k: K)
    requires k in m
    ensures CountAt(m, m[k]) > 0 && |m| > 0
  {
    assert k in KeysAt(m, m[k]);
  }

  lemma IpsAdd(sessions: map<string, Session>, key: string, sess: Session)
    ensures Ips(sessions[key := sess]) == Ips(sessions)[key := sess.ip]
  {
  }

  lemma IpsRemove(sessions: map<string, Session>, key: string)
    ensures Ips(sessions - {key}) == Ips(sessions) - {key}
  {
  }

  /** The books balance: reserved is pending + established + detached-but-uncounted-yet, the
      per-address counts are the same total split by address, and no zero entry is kept. */
  ghost predicate Balanced<K(!new)>(a: Account, detached: map<K, string>) {
    && a.reserved == |a.pending| + |a.sessions| + |detached|
    && (forall ip :: PerIp(a, ip) == CountAt(a.pending, ip) + CountAt(Ips(a.sessions), ip) + CountAt(detached, ip))
    && (forall ip :: ip in a.perIp ==> a.perIp[ip] > 0)
  }

  lemma ReserveBalanced<K(!new)>(a: Account, detached: map<K, string>, key: string, ip: string)
    requires Balanced(a, detached) && key !in a.pending
    ensures Balanced(Reserve(a, key, ip), detached)
  {
    hide CountAt, Ips;
    CountAdd(a.pending, key, ip);
  }

  lemma PendingReleasedBalanced<K(!new)>(a: Account, detached: map<K, string>, key: string)
    requires Balanced(a, detached) && key in a.pending
    ensures a.reserved > 0 && PerIp(a, a.pending[key]) > 0
    ensures Balanced(ReleaseCount(RemovePending(a, key), a.pending[key]), detached)
  {
    hide CountAt, Ips;
    CountPositive(a.pending, key);
    CountRemove(a.pending, key);
  }

  // Between leaving the pending map and entering the session map a reservation is owed by its promoter.
  lemma UnpendBalanced<K(!new)>(a: Account, detached: map<K, string>, key: string, token: K)
    requires Balanced(a, detached) && key in a.pending && token !in detached
    ensures Balanced(RemovePending(a, key), detached[token := a.pending[key]])
  {
    hide CountAt, Ips;
    CountRemove(a.pending, key);
    CountAdd(detached, token, a.pending[key]);
  }

  lemma StoreBalanced<K(!new)>(a: Account, detached: map<K, string>, key: string, sess: Session, token: K)
    requires Balanced(a, detached) && token in detached && key !in a.sessions && sess.ip == detached[token]
    ensures Balanced(Store(a, key, sess), detached - {token})
  {
    hide CountAt, Ips;
    CountRemove(detached, token);
    IpsAdd(a.sessions, key, sess);
    CountAdd(Ips(a.sessions), key, sess.ip);
  }

  lemma DetachBalanced<K(!new)>(a: Account, detached: map<K, string>, key: string, sess: Session, token: K)
    requires Balanced(a, detached) && Holds(a, key, sess) && token !in detached
    ensures Balanced(Detach(a, key, sess), detached[token := sess.ip])
  {
    hide CountAt, Ips;
    IpsRemove(a.sessions, key);
    CountRemove(Ips(a.sessions), key);
    CountAdd(detached, token, sess.ip);
  }

  lemma CountReleasedBalanced<K(!new)>(a: Account, detached: map<K, string>, token: K)
    requires Balanced(a, detached) && token in detached
    ensures a.reserved > 0 && PerIp(a, detached[token]) > 0
    ensures Balanced(ReleaseCount(a, detached[token]), detached - {token})
  {
    hide CountAt, Ips;
    CountPositive(detached, token);
    CountRemove(detached, token);
  }

  lemma EmptyBooks<K(!new)>(a: Account, detached: map<K, string>)
    requires Balanced(a, detached) && a.pending == map[] && a.sessions == map[] && detached == map[]
    ensures a.reserved == 0 && a.perIp == map[]
  {
    CountEmpty(a.pending);
    CountEmpty(Ips(a.sessions));
    CountEmpty(detached);
    assert forall ip :: ip in a.perIp <==> PerIp(a, ip) > 0;
    assert a.perIp.Keys == {};
  }

  /** On balanced books an open server turns a client down only for what can be counted: it is known already, the
      set-ups are at their cap, all sessions are, or those of its address are. */
  lemma RefusedOnlyAtCaps<K(!new)>(c: Caps, a: Account, detached: map<K, string>, key: string, ip: string)
    requires Balanced(a, detached) && !a.closed && key != "" && ip != ""
    ensures !CanReserve(c, a, key, ip) <==>
            || key in a.pending || key in a.sessions
            || |a.pending| >= c.maxSetups
            || |a.pending| + |a.sessions| + |detached| >= c.maxSessions
            || CountAt(a.pending, ip) + CountAt(Ips(a.sessions), ip) + CountAt(detached, ip) >= c.maxPerIp
  {
    hide CountAt, Ips;
    assert PerIp(a, ip) == CountAt(a.pending, ip) + CountAt(Ips(a.sessions), ip) + CountAt(detached, ip);
  }

  lemma SettledCounts(c: Caps, a: Account, key: string, ip: string)
    requires Balanced<string>(a, map[]) && !a.closed && key != "" && ip != ""
    ensures CanReserve(c, a, key, ip) <==>
            && key !in a.pending && key !in a.sessions
            && |a.pending| < c.maxSetups && |a.pending| + |a.sessions| < c.maxSessions
            && CountAt(a.pending, ip) + CountAt(Ips(a.sessions), ip) < c.maxPerIp
  {
    RefusedOnlyAtCaps<string>(c, a, map[], key, ip);
    CountEmpty<string>(map[]);
  }

  // ---------- the server object ----------

  class Server {
    const caps: Caps
    var closed: bool
    var pending: map<string, string>
    var sessions: map<string, Session>
    var reserved: nat
    var perIp: map<string, nat>

    constructor (caps: Caps)
      ensures this.caps == caps && Books() == Account(false, map[], map[], 0, map[])
    {
      this.caps := caps;
      closed, pending, sessions, reserved, perIp := false, map[], map[], 0, map[];
    }

    function Books(): Account
      reads this
    {
      Account(closed, pending, sessions, reserved, perIp)
    }

    // What the counts and the balance say of a reservation.
    lemma ReserveAnswer(a: Account, key: string, ip: string)
      ensures Balanced<string>(a, map[]) && !a.closed && key != "" && ip != "" ==>
                (CanReserve(caps, a, key, ip) <==>
                   && key !in a.pending && key !in a.sessions
                   && |a.pending| < caps.maxSetups && |a.pending| + |a.sessions| < caps.maxSessions
                   && CountAt(a.pending, ip) + CountAt(Ips(a.sessions), ip) < caps.maxPerIp)
      ensures Balanced<string>(a, map[]) && key !in a.pending ==> Balanced<string>(Reserve(a, key, ip), map[])
    {
      hide Balanced, CountAt, Ips;
      if Balanced<string>(a, map[]) {
        if !a.closed && key != "" && ip != "" {
          SettledCounts(caps, a, key, ip);
        }
        if key !in a.pending {
          ReserveBalanced<string>(a, map[], key, ip);
        }
      }
    }

    /** A client is let in exactly by what can be counted, and the books still balance. */
    method TryReserveSession(key: string, ip: string) returns (ok: bool)
      modifies this
      ensures ok <==> CanReserve(caps, old(Books()), key, ip)
      ensures Books() == if ok then Reserve(old(Books()), key, ip) else old(Books())
      ensures ok ==> pending == old(pending)[key := ip] && sessions == old(sessions) && closed == old(closed)
      ensures Balanced<string>(old(Books()), map[]) ==>
                && Balanced<string>(Books(), map[])
                && (ok <==>
                      && !old(closed) && key != "" && ip != ""
                      && key !in old(pending) && key !in old(sessions)
                      && |old(pending)| < caps.maxSetups && |old(pending)| + |old(sessions)| < caps.maxSessions
                      && CountAt(old(pending), ip) + CountAt(Ips(old(sessions)), ip) < caps.maxPerIp)
    {
      ReserveAnswer(Books(), key, ip);
      hide Balanced, CountAt, Ips;
      if closed || key == "" || ip == "" {
        return false;
      }
      if key in pending {
        return false;
      }
      if key in sessions {
        return false;
      }
      if |pending| >= caps.maxSetups || reserved >= caps.maxSessions {
        return false;
      }
      if PerIp(Books(), ip) >= caps.maxPerIp {
        return false;
      }
      pending := pending[key := ip];
      reserved := reserved + 1;
      perIp := perIp[ip := PerIp(Books(), ip) + 1];
      return true;
    }

    method ReleaseCountLocked(ip: string)
      modifies this`reserved, this`perIp
      ensures Books() == ReleaseCount(old(Books()), ip)
    {
      if reserved > 0 {
        reserved := reserved - 1;
      }
      if PerIp(Books(), ip) > 1 {
        perIp := perIp[ip := perIp[ip] - 1];
      } else {
        perIp := perIp - {ip};
      }
    }

    lemma PromoteKeepsBalance(a: Account, key: string, ip: string, sess: Session)
      requires Balanced<string>(a, map[]) && key !in a.sessions && sess.ip == ip != ""
      ensures Balanced<string>(Promote(a, key, ip, sess), map[])
    {
      hide Balanced, CountAt, Ips, ReleaseCount;
      if PendingIp(a, key) == ip {
        if a.closed {
          PendingReleasedBalanced<string>(a, map[], key);
        } else {
          UnpendBalanced<string>(a, map[], key, key);
          StoreBalanced(RemovePending(a, key), map[key := ip], key, sess, key);
          assert map[key := ip] - {key} == map[];
        }
      }
    }

    /** A reservation of that client and address becomes its session, or is given back when the server has closed;
        without one nothing changes. */
    method PromoteSession(key: string, ip: string, sess: Session) returns (ok: bool)
      modifies this
      ensures ok <==> Promotes(old(Books()), key, ip)
      ensures Books() == Promote(old(Books()), key, ip, sess)
      ensures ip != "" ==>
                var reserved := key in old(pending) && old(pending)[key] == ip;
                && (ok <==> reserved && !old(closed))
                && (reserved ==> pending == old(pending) - {key} && closed == old(closed))
                && (reserved ==> sessions == if ok then old(sessions)[key := sess] else old(sessions))
                && (!reserved ==> Books() == old(Books()))
      ensures Balanced<string>(old(Books()), map[]) && key !in old(sessions) && sess.ip == ip != "" ==>
                Balanced<string>(Books(), map[])
    {
      hide Balanced;
      if Balanced<string>(Books(), map[]) && key !in sessions && sess.ip == ip != "" {
        PromoteKeepsBalance(Books(), key, ip, sess);
      }
      if PendingIp(Books(), key) != ip {
        return false;
      }
      pending := pending - {key};
      if closed {
        ReleaseCountLocked(ip);
        return false;
      }
      sessions := sessions[key := sess];
      return true;
    }

    method ReleasePending(key: string, ip: string)
      modifies this
      ensures Books() == PendingReleased(old(Books()), key, ip)
      ensures ip != "" ==>
                var reserved := key in old(pending) && old(pending)[key] == ip;
                && pending == (if reserved then old(pending) - {key} else old(pending))
                && sessions == old(sessions) && closed == old(closed)
      ensures Balanced<string>(old(Books()), map[]) && ip != "" ==> Balanced<string>(Books(), map[])
    {
      if Balanced<string>(Books(), map[]) && key in pending {
        PendingReleasedBalanced<string>(Books(), map[], key);
      }
      hide Balanced;
      if PendingIp(Books(), key) != ip {
        return;
      }
      pending := pending - {key};
      ReleaseCountLocked(ip);
    }

    /** dropSession run without interruption. */
    method DropSession(key: string, expected: Session) returns (dropped: bool)
      modifies this
      ensures dropped <==> Holds(old(Books()), key, expected)
      ensures dropped <==> key in old(sessions) && old(sessions)[key] == expected
      ensures sessions == (if dropped then old(sessions) - {key} else old(sessions)) && pending == old(pending)
      ensures Books() == if dropped then ReleaseCount(Detach(old(Books()), key, expected), expected.ip)
                         else old(Books())
    {
      if key !in sessions || sessions[key] != expected {
        return false;
      }
      sessions := sessions - {key};
      ReleaseCountLocked(expected.ip);
      return true;
    }

    lemma DropKeepsBalance(a: Account, key: string, sess: Session)
      requires Balanced<string>(a, map[]) && Holds(a, key, sess)
      ensures Balanced<string>(ReleaseCount(Detach(a, key, sess), sess.ip), map[])
    {
      DetachBalanced<string>(a, map[], key, sess, key);
      CountReleasedBalanced(Detach(a, key, sess), map[key := sess.ip], key);
      assert map[key := sess.ip] - {key} == map[];
    }

    method DropOne(key: string)
      requires Balanced<string>(Books(), map[]) && key in sessions
      modifies this
      ensures Balanced<string>(Books(), map[])
      ensures sessions == old(sessions) - {key} && pending == old(pending) && closed == old(closed)
    {
      DropKeepsBalance(Books(), key, sessions[key]);
      hide Balanced;
      var _ := DropSession(key, sessions[key]);
    }

    /** reapIdle: collect the idle sessions, then drop each one seen. */
    method ReapIdle(idle: set<string>)
      requires Balanced<string>(Books(), map[])
      modifies this
      ensures Balanced<string>(Books(), map[])
      ensures sessions == old(sessions) - idle
      ensures pending == old(pending) && closed == old(closed)
    {
      hide Balanced, Detach, ReleaseCount, Holds;
      var todo := sessions.Keys * idle;
      ghost var all, gone: set<string> := todo, {};
      while todo != {}
        invariant Balanced<string>(Books(), map[])
        invariant pending == old(pending) && closed == old(closed)
        invariant gone + todo == all && gone !! todo
        invariant sessions == old(sessions) - gone
        decreases todo
      {
        var key :| key in todo;
        DropOne(key);
        todo, gone := todo - {key}, gone + {key};
      }
      assert old(sessions) - all == old(sessions) - idle;
    }
  }
}
