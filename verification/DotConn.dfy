/** One multiplexed DoT connection (section 3.4 of RFC 7858): the object and its critical sections. */
module DotConn {
  import opened Text

  // A DNS message ID.
  type QueryId = x: nat | x < 0x10000

  // The waiter registered under an ID, pinned to the connection it was written on.
  datatype PendingQuery = PendingQuery(conn: nat, ch: nat)

  datatype Shared = Shared(
    conn: Option<nat>,                     // the installed connection
    pending: map<QueryId, PendingQuery>,
    nextId: QueryId,
    closed: bool)

  function Advance(id: QueryId, n: nat): QueryId {
    (id + n) % 0x10000
  }

  ghost predicate AllPending(pending: map<QueryId, PendingQuery>) {
    forall id: QueryId :: id in pending
  }

  // id is the first free ID behind next, in wrap-around order.
  ghost predicate FirstFree(pending: map<QueryId, PendingQuery>, next: QueryId, id: QueryId) {
    && id !in pending
    && exists n: nat :: 1 <= n <= 0x10000 && id == Advance(next, n)
                        && forall j: nat :: 1 <= j < n ==> Advance(next, j) in pending
  }

  // The wrapping probe reaches every ID within one round.
  lemma ProbeReaches(next: QueryId, id: QueryId) returns (n: nat)
    ensures 1 <= n <= 0x10000 && Advance(next, n) == id
  {
    n := if id > next then id - next else id + 0x10000 - next;
  }

  /** The probe visits each ID exactly once per round. */
  lemma ProbeVisitsOnce(next: QueryId, j: nat, k: nat)
    requires 1 <= j <= 0x10000 && 1 <= k <= 0x10000 && Advance(next, j) == Advance(next, k)
    ensures j == k
  {
  }

  // The channels retire fails: every waiter pinned to the connection.
  function WaitersOn(pending: map<QueryId, PendingQuery>, conn: nat): set<nat> {
    set id | id in pending && pending[id].conn == conn :: pending[id].ch
  }

  function Without(pending: map<QueryId, PendingQuery>, conn: nat): map<QueryId, PendingQuery> {
    map id | id in pending && pending[id].conn != conn :: pending[id]
  }

  function Waiters(pending: map<QueryId, PendingQuery>): set<nat> {
    set id | id in pending :: pending[id].ch
  }

  // ---------- critical sections ----------

  function AddEntry(s: Shared, conn: nat, id: QueryId, ch: nat): Shared {
    s.(pending := s.pending[id := PendingQuery(conn, ch)], nextId := id)
  }

  predicate IsPending(s: Shared, conn: nat, id: QueryId) {
    id in s.pending && s.pending[id].conn == conn
  }

  function DropEntry(s: Shared, conn: nat, id: QueryId): Shared {
    if IsPending(s, conn, id) then s.(pending := s.pending - {id}) else s
  }

  function DropConn(s: Shared, conn: nat): Shared {
    s.(conn := if s.conn == Some(conn) then None else s.conn, pending := Without(s.pending, conn))
  }

  function Shut(s: Shared): Shared {
    s.(closed := true, conn := None, pending := map[])
  }

  datatype RegisterOutcome = Failed | CapacityExhausted | NoConnection | Registered(conn: nat, id: QueryId)
  datatype InstallOutcome = Refused | Raced | Installed

  class Conn {
    var conn: Option<nat>
    var pending: map<QueryId, PendingQuery>
    var nextId: QueryId
    var closed: bool

    constructor ()
      ensures View() == Shared(None, map[], 0, false)
    {
      conn, pending, nextId, closed := None, map[], 0, false;
    }

    function View(): Shared
      reads this
    {
      Shared(conn, pending, nextId, closed)
    }

    /** pickID: fails exactly when all 65,536 IDs are pending, whatever nextId is. */
    method PickID() returns (id: QueryId, ok: bool)
      modifies this`nextId
      ensures !ok <==> AllPending(pending)
      ensures ok ==> FirstFree(pending, old(nextId), id) && nextId == id
      ensures !ok ==> nextId == old(nextId)
    {
      ghost var start := nextId;
      for i := 0 to 0x10000
        invariant nextId == Advance(start, i)
        invariant forall j: nat :: 1 <= j <= i ==> Advance(start, j) in pending
      {
        nextId := Advance(nextId, 1);
        if nextId !in pending {
          assert nextId == Advance(start, i + 1);
          return nextId, true;
        }
      }
      forall x: QueryId ensures x in pending {
        var n := ProbeReaches(start, x);
      }
      return 0, false;
    }

    /** One pass of register's loop under the lock. */
    method Register(ctxDone: bool, ch: nat) returns (out: RegisterOutcome)
      modifies this
      ensures out.Failed? <==> ctxDone || old(closed)
      ensures out.NoConnection? <==> !ctxDone && !old(closed) && old(conn).None?
      ensures out.CapacityExhausted? <==> !ctxDone && !old(closed) && old(conn).Some? && AllPending(old(pending))
      ensures out.Registered? ==>
                old(conn) == Some(out.conn) && FirstFree(old(pending), old(nextId), out.id)
                && View() == AddEntry(old(View()), out.conn, out.id, ch)
                && out.id !in old(pending) && pending == old(pending)[out.id := PendingQuery(out.conn, ch)]
                && conn == old(conn) && closed == old(closed)
      ensures !out.Registered? ==> View() == old(View())
    {
      if ctxDone {
        return Failed;
      }
      if closed {
        return Failed;
      }
      if conn.Some? {
        var id, ok := PickID();
        if !ok {
          return CapacityExhausted;
        }
        pending := pending[id := PendingQuery(conn.value, ch)];
        return Registered(conn.value, id);
      }
      return NoConnection;
    }

    method Forget(c: nat, id: QueryId)
      modifies this`pending
      ensures View() == DropEntry(old(View()), c, id)
      ensures pending == if id in old(pending) && old(pending)[id].conn == c then old(pending) - {id} else old(pending)
    {
      if id in pending && pending[id].conn == c {
        pending := pending - {id};
      }
    }

    /** The reader's section for one reply: the waiter to hand it to, if any. */
    method Dispatch(c: nat, id: QueryId) returns (ch: Option<nat>)
      modifies this`pending
      ensures ch == if id in old(pending) && old(pending)[id].conn == c then Some(old(pending)[id].ch) else None
      ensures View() == DropEntry(old(View()), c, id)
      ensures pending == if ch.Some? then old(pending) - {id} else old(pending)
    {
      if id in pending && pending[id].conn == c {
        ch := Some(pending[id].ch);
        pending := pending - {id};
      } else {
        ch := None;
      }
    }

    /** reconnect's second section, with a freshly dialed connection in hand. */
    method Install(c: nat) returns (out: InstallOutcome)
      modifies this`conn
      ensures out.Refused? <==> old(closed)
      ensures out.Raced? <==> !old(closed) && old(conn).Some?
      ensures View() == if out.Installed? then old(View()).(conn := Some(c)) else old(View())
    {
      if closed {
        return Refused;
      }
      if conn.Some? {
        return Raced;
      }
      conn := Some(c);
      return Installed;
    }

    /** retire's section: drop the generation and collect its waiters, one map entry at a time. */
    method Retire(c: nat) returns (failed: set<nat>)
      modifies this`conn, this`pending
      ensures View() == DropConn(old(View()), c)
      ensures failed == WaitersOn(old(pending), c)
      ensures conn == (if old(conn) == Some(c) then None else old(conn))
      ensures forall id :: id in pending <==> id in old(pending) && old(pending)[id].conn != c
      ensures forall id :: id in pending ==> pending[id] == old(pending)[id]
      ensures forall ch :: ch in failed <==> exists id :: id in old(pending) && old(pending)[id] == PendingQuery(c, ch)
    {
      if conn == Some(c) {
        conn := None;
      }
      failed := {};
      var ids := pending.Keys;
      ghost var done: set<QueryId> := {};
      while ids != {}
        invariant conn == DropConn(old(View()), c).conn
        invariant done + ids == old(pending).Keys && done !! ids
        invariant pending == map id | id in old(pending) && (id in ids || old(pending)[id].conn != c) :: old(pending)[id]
        invariant failed == set id | id in done && old(pending)[id].conn == c :: old(pending)[id].ch
        decreases ids
      {
        var id :| id in ids;
        if pending[id].conn == c {
          failed := failed + {pending[id].ch};
          pending := pending - {id};
        }
        ids, done := ids - {id}, done + {id};
      }
      assert pending == Without(old(pending), c);
    }

    /** close's section; a second call changes nothing. */
    method Close() returns (failed: set<nat>)
      modifies this
      ensures View() == if old(closed) then old(View()) else Shut(old(View()))
      ensures failed == if old(closed) then {} else Waiters(old(pending))
      ensures closed && (!old(closed) ==> conn.None? && pending == map[])
      ensures forall ch :: ch in failed <==> !old(closed) && exists id :: id in old(pending) && old(pending)[id].ch == ch
    {
      if closed {
        return {};
      }
      closed := true;
      conn := None;
      failed := Waiters(pending);
      pending := map[];
    }
  }
}
