/** Every goroutine around one multiplexed DoT connection, interleaved at its critical sections:
    queries that register, dial, write and wait; readers; and close. */
module DotMachine {
  import opened Text
  import opened DotConn

  // What a waiter's channel carries: the reply read from a connection under an ID, or the failure nil.
  datatype Value = Reply(conn: nat, id: QueryId) | NilReply

  // What became of a channel's entry in the pending map.
  datatype Fate =
    | Waiting              // still in the map
    | Taken(holder: nat)   // removed by that goroutine, which has yet to send
    | Sent(value: Value)
    | Forgotten            // removed by forget

  // A waiter's one-slot channel and the registration it was made for.
  datatype Chan = Chan(conn: nat, id: QueryId, fate: Fate, slot: Option<Value>, sends: nat, lost: nat)

  datatype Life = HeldBy(dialer: nat) | InUse | RetiredBy(owner: nat) | Dead

  datatype Proc =
    | Registering
    | NeedConn
    | Dialing
    | Dialed(spare: nat)
    | Discarding(spare: nat, again: bool)
    | Writing(conn: nat, id: QueryId, ch: nat)
    | Awaiting(conn: nat, id: QueryId, ch: nat)
    | Reader(conn: nat)
    | Delivering(conn: nat, id: QueryId, ch: nat)
    | Retiring(conn: nat, failed: set<nat>)      // retire or close, about to close the socket
    | Failing(failed: set<nat>)                  // ... then sending nil to each collected waiter
    | Over

  datatype State = State(
    sh: Shared,
    chans: map<nat, Chan>,
    conns: map<nat, Life>,
    procs: map<nat, Proc>)

  datatype Action =
    | NewQuery(p: nat)
    | GiveUp(p: nat)                               // context done while registering
    | TryRegister(p: nat, id: QueryId, ch: nat)
    | CheckConn(p: nat)                            // reconnect's first section
    | DialFails(p: nat)
    | DialOk(p: nat, c: nat)
    | DialCancelled(p: nat)
    | TryInstall(p: nat, r: nat)
    | Discard(p: nat)
    | WriteOk(p: nat)
    | WriteFails(p: nat)
    | Receive(p: nat)
    | Deadline(p: nat)
    | Cancelled(p: nat)
    | ReadReply(p: nat, id: QueryId)
    | ReadFails(p: nat)
    | Deliver(p: nat)
    | BeginClose(p: nat)
    | CloseSocket(p: nat)
    | FailOne(p: nat, ch: nat)
    | FailedAll(p: nat)

  function ProcOf(s: State, p: nat): Proc {
    if p in s.procs then s.procs[p] else Over
  }

  ghost predicate Enabled(s: State, a: Action) {
    match a
    case NewQuery(p) => p !in s.procs
    case GiveUp(p) => ProcOf(s, p).Registering?
    case TryRegister(p, id, ch) =>
      ProcOf(s, p).Registering?
      && (!s.sh.closed && s.sh.conn.Some? && !AllPending(s.sh.pending) ==>
            FirstFree(s.sh.pending, s.sh.nextId, id) && ch !in s.chans)
    case CheckConn(p) => ProcOf(s, p).NeedConn?
    case DialFails(p) => ProcOf(s, p).Dialing?
    case DialOk(p, c) => ProcOf(s, p).Dialing? && c !in s.conns
    case DialCancelled(p) => ProcOf(s, p).Dialed?
    case TryInstall(p, r) => ProcOf(s, p).Dialed? && r !in s.procs
    case Discard(p) => ProcOf(s, p).Discarding?
    case WriteOk(p) => ProcOf(s, p).Writing?
    case WriteFails(p) => ProcOf(s, p).Writing?
    case Receive(p) =>
      ProcOf(s, p).Awaiting? && ProcOf(s, p).ch in s.chans && s.chans[ProcOf(s, p).ch].slot.Some?
    case Deadline(p) => ProcOf(s, p).Awaiting?
    case Cancelled(p) => ProcOf(s, p).Awaiting?
    case ReadReply(p, id) => ProcOf(s, p).Reader?
    case ReadFails(p) => ProcOf(s, p).Reader?
    case Deliver(p) => ProcOf(s, p).Delivering? && ProcOf(s, p).ch in s.chans
    case BeginClose(p) => p !in s.procs
    case CloseSocket(p) => ProcOf(s, p).Retiring?
    case FailOne(p, ch) => ProcOf(s, p).Failing? && ch in ProcOf(s, p).failed && ch in s.chans
    case FailedAll(p) => ProcOf(s, p) == Failing({})
  }

  function Become(s: State, p: nat, proc: Proc): State {
    s.(procs := s.procs[p := proc])
  }

  // Marks every channel in chs as taken by p.
  function Take(chans: map<nat, Chan>, chs: set<nat>, p: nat): map<nat, Chan> {
    map ch | ch in chans :: if ch in chs then chans[ch].(fate := Taken(p)) else chans[ch]
  }

  // A non-blocking send into a one-slot channel.
  function Send(c: Chan, v: Value): Chan {
    if c.slot.None? then c.(slot := Some(v), fate := Sent(v), sends := c.sends + 1) else c.(lost := c.lost + 1)
  }

  function SendTo(s: State, ch: nat, v: Value): State
    requires ch in s.chans
  {
    s.(chans := s.chans[ch := Send(s.chans[ch], v)])
  }

  function RetireStep(s: State, p: nat, c: nat): State {
    var failed := WaitersOn(s.sh.pending, c);
    var s' := s.(sh := DropConn(s.sh, c), chans := Take(s.chans, failed, p),
                 conns := if s.sh.conn == Some(c) then s.conns[c := RetiredBy(p)] else s.conns);
    Become(s', p, Retiring(c, failed))
  }

  function ForgetStep(s: State, c: nat, id: QueryId): State {
    if IsPending(s.sh, c, id) && s.sh.pending[id].ch in s.chans
    then
      var ch := s.sh.pending[id].ch;
      s.(sh := DropEntry(s.sh, c, id), chans := s.chans[ch := s.chans[ch].(fate := Forgotten)])
    else s
  }

  function CloseStep(s: State, p: nat): State {
    if s.sh.closed then Become(s, p, Over)
    else
      var failed := Waiters(s.sh.pending);
      var s' := s.(sh := Shut(s.sh), chans := Take(s.chans, failed, p));
      match s.sh.conn
      case None => Become(s', p, Failing(failed))
      case Some(c) => Become(s'.(conns := s.conns[c := RetiredBy(p)]), p, Retiring(c, failed))
  }

  ghost function RegisterStep(s: State, p: nat, id: QueryId, ch: nat): State {
    if s.sh.closed then Become(s, p, Over)
    else match s.sh.conn
      case None => Become(s, p, NeedConn)
      case Some(c) =>
        if AllPending(s.sh.pending) then Become(s, p, Over)
        else Become(s.(sh := AddEntry(s.sh, c, id, ch), chans := s.chans[ch := Chan(c, id, Waiting, None, 0, 0)]),
                    p, Writing(c, id, ch))
  }

  function InstallStep(s: State, p: nat, r: nat, c: nat): State {
    if s.sh.closed then Become(s, p, Discarding(c, false))
    else if s.sh.conn.Some? then Become(s, p, Discarding(c, true))
    else Become(Become(s.(sh := s.sh.(conn := Some(c)), conns := s.conns[c := InUse]), r, Reader(c)),
                p, Registering)
  }

  ghost function Do(s: State, a: Action): State
    requires Enabled(s, a)
  {
    match a
    case NewQuery(p) => Become(s, p, Registering)
    case GiveUp(p) => Become(s, p, Over)
    case TryRegister(p, id, ch) => RegisterStep(s, p, id, ch)
    case CheckConn(p) =>
      Become(s, p, if s.sh.closed then Over else if s.sh.conn.Some? then Registering else Dialing)
    case DialFails(p) => Become(s, p, Over)
    case DialOk(p, c) => Become(s.(conns := s.conns[c := HeldBy(p)]), p, Dialed(c))
    case DialCancelled(p) => Become(s, p, Discarding(s.procs[p].spare, false))
    case TryInstall(p, r) => InstallStep(s, p, r, s.procs[p].spare)
    case Discard(p) =>
      Become(s.(conns := s.conns[s.procs[p].spare := Dead]), p, if s.procs[p].again then Registering else Over)
    case WriteOk(p) => Become(s, p, Awaiting(s.procs[p].conn, s.procs[p].id, s.procs[p].ch))
    case WriteFails(p) => RetireStep(s, p, s.procs[p].conn)
    case Receive(p) =>
      var ch := s.procs[p].ch;
      Become(s.(chans := s.chans[ch := s.chans[ch].(slot := None)]), p, Over)
    case Deadline(p) => RetireStep(s, p, s.procs[p].conn)
    case Cancelled(p) => Become(ForgetStep(s, s.procs[p].conn, s.procs[p].id), p, Over)
    case ReadReply(p, id) =>
      var c := s.procs[p].conn;
      if IsPending(s.sh, c, id) then
        var ch := s.sh.pending[id].ch;
        Become(s.(sh := DropEntry(s.sh, c, id), chans := Take(s.chans, {ch}, p)), p, Delivering(c, id, ch))
      else s
    case ReadFails(p) => RetireStep(s, p, s.procs[p].conn)
    case Deliver(p) =>
      var d := s.procs[p];
      Become(SendTo(s, d.ch, Reply(d.conn, d.id)), p, Reader(d.conn))
    case BeginClose(p) => CloseStep(s, p)
    case CloseSocket(p) =>
      Become(s.(conns := s.conns[s.procs[p].conn := Dead]), p, Failing(s.procs[p].failed))
    case FailOne(p, ch) => Become(SendTo(s, ch, NilReply), p, Failing(s.procs[p].failed - {ch}))
    case FailedAll(p) => Become(s, p, Over)
  }

  predicate Init(s: State) {
    s == State(Shared(None, map[], 0, false), map[], map[], map[])
  }

  ghost predicate Step(s: State, s': State) {
    exists a :: Enabled(s, a) && s' == Do(s, a)
  }

  ghost predicate Run(run: seq<State>) {
    && run != [] && Init(run[0])
    && forall i :: 0 <= i < |run| - 1 ==> Step(run[i], run[i + 1])
  }

  // ---------- invariant ----------

  // Every entry is pinned to the installed connection; there is none when there is no connection.
  ghost predicate Pinned(sh: Shared) {
    && (forall id :: id in sh.pending ==> sh.conn == Some(sh.pending[id].conn))
    && (sh.closed ==> sh.conn.None?)
  }

  // Entries and waiting channels are the same thing seen from both sides.
  ghost predicate Mirrored(pending: map<QueryId, PendingQuery>, chans: map<nat, Chan>) {
    && (forall id :: id in pending ==>
          var q := pending[id];
          q.ch in chans && chans[q.ch].fate.Waiting? && chans[q.ch].conn == q.conn && chans[q.ch].id == id)
    && (forall ch :: ch in chans && chans[ch].fate.Waiting? ==>
          chans[ch].id in pending && pending[chans[ch].id].ch == ch)
  }

  function InHand(proc: Proc): set<nat> {
    match proc
    case Delivering(_, _, ch) => {ch}
    case Retiring(_, failed) => failed
    case Failing(failed) => failed
    case _ => {}
  }

  // A taken channel is in the hands of exactly the goroutine that took it.
  ghost predicate Handed(chans: map<nat, Chan>, procs: map<nat, Proc>) {
    && (forall p, ch :: p in procs && ch in InHand(procs[p]) ==> ch in chans && chans[ch].fate == Taken(p))
    && (forall ch :: ch in chans && chans[ch].fate.Taken? ==>
          chans[ch].fate.holder in procs && ch in InHand(procs[chans[ch].fate.holder]))
    && (forall p :: p in procs && procs[p].Delivering? ==>
          procs[p].ch in chans
          && chans[procs[p].ch].conn == procs[p].conn && chans[procs[p].ch].id == procs[p].id)
  }

  // Exactly one value once sent, none before, and never one from another registration.
  predicate ChanOk(c: Chan) {
    && c.lost == 0
    && c.sends == (if c.fate.Sent? then 1 else 0)
    && (c.slot.Some? ==> c.fate == Sent(c.slot.value))
    && (c.fate.Sent? && c.fate.value.Reply? ==> c.fate.value == Reply(c.conn, c.id))
  }

  ghost predicate ChansOk(chans: map<nat, Chan>) {
    forall ch :: ch in chans ==> ChanOk(chans[ch])
  }

  predicate PastInstall(conns: map<nat, Life>, c: nat) {
    c in conns && !conns[c].HeldBy?
  }

  predicate Gone(conns: map<nat, Life>, c: nat) {
    c in conns && (conns[c].RetiredBy? || conns[c].Dead?)
  }

  predicate LivesIn(conns: map<nat, Life>, p: nat, proc: Proc) {
    match proc
    case Dialed(c) => c in conns && conns[c] == HeldBy(p)
    case Discarding(c, _) => c in conns && conns[c] == HeldBy(p)
    case Writing(c, _, _) => PastInstall(conns, c)
    case Awaiting(c, _, _) => PastInstall(conns, c)
    case Reader(c) => PastInstall(conns, c)
    case Delivering(c, _, _) => PastInstall(conns, c)
    case Retiring(c, _) => Gone(conns, c)
    case _ => true
  }

  predicate Accounted(procs: map<nat, Proc>, conn: Option<nat>, c: nat, life: Life) {
    match life
    case HeldBy(p) => p in procs && (procs[p] == Dialed(c) || (procs[p].Discarding? && procs[p].spare == c))
    case InUse => conn == Some(c)
    case RetiredBy(p) => p in procs && procs[p].Retiring? && procs[p].conn == c
    case Dead => true
  }

  // Every dialed connection is with its dialer, installed, being retired, or closed.
  ghost predicate Lives(conns: map<nat, Life>, conn: Option<nat>, procs: map<nat, Proc>) {
    && (conn.Some? ==> conn.value in conns && conns[conn.value].InUse?)
    && (forall p :: p in procs ==> LivesIn(conns, p, procs[p]))
    && (forall c :: c in conns ==> Accounted(procs, conn, c, conns[c]))
  }

  predicate Waits(proc: Proc) {
    proc.Writing? || proc.Awaiting?
  }

  // A query waits on the channel of its own registration, and on a channel of its own.
  ghost predicate Owned(chans: map<nat, Chan>, procs: map<nat, Proc>) {
    && (forall p :: p in procs && Waits(procs[p]) ==>
          procs[p].ch in chans
          && chans[procs[p].ch].conn == procs[p].conn && chans[procs[p].ch].id == procs[p].id)
    && (forall p, q :: p in procs && q in procs && Waits(procs[p]) && Waits(procs[q]) && procs[p].ch == procs[q].ch ==>
          p == q)
  }

  ghost predicate Inv(s: State) {
    && Pinned(s.sh)
    && Owned(s.chans, s.procs)
    && Mirrored(s.sh.pending, s.chans)
    && Handed(s.chans, s.procs)
    && ChansOk(s.chans)
    && Lives(s.conns, s.sh.conn, s.procs)
  }

  // ---------- pinning ----------

  lemma PinnedKept(s: State, a: Action)
    requires Inv(s) && Enabled(s, a)
    ensures Pinned(Do(s, a).sh)
  {
    hide Owned, Mirrored, Handed, ChansOk, Lives, FirstFree, AllPending;
  }

  // ---------- channels ----------

  lemma MirroredSame(pending: map<QueryId, PendingQuery>, chans: map<nat, Chan>, ch: nat, c: Chan)
    requires Mirrored(pending, chans) && ch in chans && !chans[ch].fate.Waiting? && !c.fate.Waiting?
    ensures Mirrored(pending, chans[ch := c])
  {
  }

  lemma MirroredRetire(pending: map<QueryId, PendingQuery>, chans: map<nat, Chan>, c: nat, p: nat)
    requires Mirrored(pending, chans)
    ensures Mirrored(Without(pending, c), Take(chans, WaitersOn(pending, c), p))
  {
    var failed := WaitersOn(pending, c);
    forall ch | ch in chans && chans[ch].fate.Waiting? && ch !in failed
      ensures chans[ch].id in Without(pending, c)
    {
      assert pending[chans[ch].id].ch == ch;
    }
  }

  lemma MirroredClose(pending: map<QueryId, PendingQuery>, chans: map<nat, Chan>, p: nat)
    requires Mirrored(pending, chans)
    ensures Mirrored(map[], Take(chans, Waiters(pending), p))
  {
    forall ch | ch in chans && chans[ch].fate.Waiting? ensures ch in Waiters(pending) {
      assert pending[chans[ch].id].ch == ch;
    }
  }

  lemma MirroredRemove(pending: map<QueryId, PendingQuery>, chans: map<nat, Chan>, id: QueryId, fate: Fate)
    requires Mirrored(pending, chans) && id in pending && !fate.Waiting?
    ensures var ch := pending[id].ch; Mirrored(pending - {id}, chans[ch := chans[ch].(fate := fate)])
  {
  }

  lemma MirroredAdd(pending: map<QueryId, PendingQuery>, chans: map<nat, Chan>, id: QueryId, c: nat, ch: nat)
    requires Mirrored(pending, chans) && id !in pending && ch !in chans
    ensures Mirrored(pending[id := PendingQuery(c, ch)], chans[ch := Chan(c, id, Waiting, None, 0, 0)])
  {
  }

  lemma TakeOne(chans: map<nat, Chan>, ch: nat, p: nat)
    requires ch in chans
    ensures Take(chans, {ch}, p) == chans[ch := chans[ch].(fate := Taken(p))]
  {
  }

  lemma PendingChan(s: State, id: QueryId)
    requires Mirrored(s.sh.pending, s.chans) && id in s.sh.pending
    ensures var q := s.sh.pending[id];
            q.ch in s.chans && s.chans[q.ch].fate.Waiting? && s.chans[q.ch].conn == q.conn && s.chans[q.ch].id == id
  {
  }

  lemma HandTaken(s: State, p: nat, ch: nat)
    requires Handed(s.chans, s.procs) && p in s.procs && ch in InHand(s.procs[p])
    ensures ch in s.chans && s.chans[ch].fate == Taken(p)
  {
  }

  lemma MirroredKept(s: State, a: Action)
    requires Inv(s) && Enabled(s, a)
    ensures Mirrored(Do(s, a).sh.pending, Do(s, a).chans)
  {
    hide Owned, Mirrored, Handed, ChansOk, Lives, FirstFree, AllPending, Pinned;
    match a {
      case TryRegister(p, id, ch) => RegisterMirrored(s, a);
      case WriteFails(p) => MirroredRetire(s.sh.pending, s.chans, s.procs[p].conn, p);
      case Deadline(p) => MirroredRetire(s.sh.pending, s.chans, s.procs[p].conn, p);
      case ReadFails(p) => MirroredRetire(s.sh.pending, s.chans, s.procs[p].conn, p);
      case Receive(p) => ReceiveMirrored(s, p);
      case Cancelled(p) =>
        var c, id := s.procs[p].conn, s.procs[p].id;
        if IsPending(s.sh, c, id) {
          MirroredRemove(s.sh.pending, s.chans, id, Forgotten);
        }
      case ReadReply(p, id) =>
        if IsPending(s.sh, s.procs[p].conn, id) {
          PendingChan(s, id);
          TakeOne(s.chans, s.sh.pending[id].ch, p);
          MirroredRemove(s.sh.pending, s.chans, id, Taken(p));
        }
      case Deliver(p) => SendMirrored(s, p, s.procs[p].ch, Reply(s.procs[p].conn, s.procs[p].id));
      case FailOne(p, ch) => SendMirrored(s, p, ch, NilReply);
      case BeginClose(p) => MirroredClose(s.sh.pending, s.chans, p);
      case _ =>
    }
  }

  lemma RegisterMirrored(s: State, a: Action)
    requires Inv(s) && Enabled(s, a) && a.TryRegister?
    ensures Mirrored(Do(s, a).sh.pending, Do(s, a).chans)
  {
    hide Owned, Mirrored, Handed, ChansOk, Lives, Pinned, AllPending;
    if !s.sh.closed && s.sh.conn.Some? && !AllPending(s.sh.pending) {
      MirroredAdd(s.sh.pending, s.chans, a.id, s.sh.conn.value, a.ch);
    }
  }

  lemma ReceiveMirrored(s: State, p: nat)
    requires Inv(s) && Enabled(s, Receive(p))
    ensures Mirrored(s.sh.pending, Do(s, Receive(p)).chans)
  {
    hide Owned, Mirrored, Handed, Lives, Pinned;
    var ch := s.procs[p].ch;
    assert ChanOk(s.chans[ch]);
    MirroredSame(s.sh.pending, s.chans, ch, s.chans[ch].(slot := None));
  }

  lemma SendMirrored(s: State, p: nat, ch: nat, v: Value)
    requires Inv(s) && p in s.procs && ch in InHand(s.procs[p])
    ensures ch in s.chans && Mirrored(s.sh.pending, SendTo(s, ch, v).chans)
  {
    hide Owned, Mirrored, Lives, Pinned, ChansOk;
    MirroredSame(s.sh.pending, s.chans, ch, Send(s.chans[ch], v));
  }

  // ---------- channels in hand ----------

  lemma HandedElsewhere(chans: map<nat, Chan>, procs: map<nat, Proc>, p: nat, proc: Proc)
    requires Handed(chans, procs) && InHand(proc) == {} && (p in procs ==> InHand(procs[p]) == {})
    ensures Handed(chans, procs[p := proc])
  {
    assert !proc.Delivering?;
  }

  lemma HandedKeep(chans: map<nat, Chan>, procs: map<nat, Proc>, p: nat, proc: Proc)
    requires Handed(chans, procs) && p in procs && InHand(proc) == InHand(procs[p]) && !proc.Delivering?
    ensures Handed(chans, procs[p := proc])
  {
  }

  lemma HandedChan(chans: map<nat, Chan>, procs: map<nat, Proc>, ch: nat, c: Chan)
    requires Handed(chans, procs) && !c.fate.Taken?
    requires ch in chans ==> !chans[ch].fate.Taken?
    ensures Handed(chans[ch := c], procs)
  {
    forall p | p in procs && procs[p].Delivering? ensures procs[p].ch != ch {
      assert procs[p].ch in InHand(procs[p]);
    }
  }

  lemma HandedTake(chans: map<nat, Chan>, procs: map<nat, Proc>, p: nat, chs: set<nat>, proc: Proc)
    requires Handed(chans, procs) && (p in procs ==> InHand(procs[p]) == {})
    requires InHand(proc) == chs && forall ch :: ch in chs ==> ch in chans && !chans[ch].fate.Taken?
    requires proc.Delivering? ==> chans[proc.ch].conn == proc.conn && chans[proc.ch].id == proc.id
    ensures Handed(Take(chans, chs, p), procs[p := proc])
  {
    var chans', procs' := Take(chans, chs, p), procs[p := proc];
    forall q, ch | q in procs' && ch in InHand(procs'[q]) ensures ch in chans' && chans'[ch].fate == Taken(q) {
      if q != p {
        assert chans[ch].fate == Taken(q);
      }
    }
  }

  lemma HeldOnce(chans: map<nat, Chan>, procs: map<nat, Proc>, p: nat, q: nat, ch: nat)
    requires Handed(chans, procs) && p in procs && q in procs
    requires ch in InHand(procs[p]) && ch in InHand(procs[q])
    ensures p == q
  {
    assert chans[ch].fate == Taken(p);
  }

  lemma HandedSend(chans: map<nat, Chan>, procs: map<nat, Proc>, p: nat, ch: nat, c: Chan, proc: Proc)
    requires Handed(chans, procs) && p in procs && ch in InHand(procs[p]) && !c.fate.Taken?
    requires InHand(proc) == InHand(procs[p]) - {ch} && !proc.Delivering?
    ensures Handed(chans[ch := c], procs[p := proc])
  {
    forall q | q in procs && ch in InHand(procs[q]) ensures q == p {
      HeldOnce(chans, procs, p, q, ch);
    }
    forall q | q in procs && q != p && procs[q].Delivering? ensures procs[q].ch != ch {
      assert procs[q].ch in InHand(procs[q]);
    }
  }

  lemma WaitersWait(pending: map<QueryId, PendingQuery>, chans: map<nat, Chan>, c: nat)
    requires Mirrored(pending, chans)
    ensures forall ch :: ch in WaitersOn(pending, c) || ch in Waiters(pending) ==>
              ch in chans && chans[ch].fate.Waiting?
  {
  }

  lemma HandedKept(s: State, a: Action)
    requires Inv(s) && Enabled(s, a)
    ensures Handed(Do(s, a).chans, Do(s, a).procs)
  {
    hide Owned, Mirrored, Handed, ChansOk, Lives, FirstFree, AllPending, Pinned;
    match a {
      case TryRegister(p, id, ch) => RegisterHanded(s, a);
      case WriteFails(p) => RetireHanded(s, p);
      case Deadline(p) => RetireHanded(s, p);
      case ReadFails(p) => RetireHanded(s, p);
      case Receive(p) => ReceiveHanded(s, p);
      case Cancelled(p) => CancelHanded(s, p);
      case ReadReply(p, id) => ReadHanded(s, p, id);
      case Deliver(p) => SendHanded(s, p, s.procs[p].ch, Reply(s.procs[p].conn, s.procs[p].id), Reader(s.procs[p].conn));
      case FailOne(p, ch) => SendHanded(s, p, ch, NilReply, Failing(s.procs[p].failed - {ch}));
      case CloseSocket(p) => HandedKeep(s.chans, s.procs, p, Failing(s.procs[p].failed));
      case BeginClose(p) => CloseHanded(s, p);
      case TryInstall(p, r) =>
        if !s.sh.closed && s.sh.conn.None? {
          HandedElsewhere(s.chans, s.procs, r, Reader(s.procs[p].spare));
          HandedElsewhere(s.chans, s.procs[r := Reader(s.procs[p].spare)], p, Registering);
        } else {
          HandedElsewhere(s.chans, s.procs, p, Do(s, a).procs[p]);
        }
      case _ => HandedElsewhere(s.chans, s.procs, a.p, Do(s, a).procs[a.p]);
    }
  }

  lemma RegisterHanded(s: State, a: Action)
    requires Inv(s) && Enabled(s, a) && a.TryRegister?
    ensures Handed(Do(s, a).chans, Do(s, a).procs)
  {
    hide Owned, Mirrored, Handed, ChansOk, Lives, FirstFree, AllPending, Pinned;
    var p := a.p;
    HandedElsewhere(s.chans, s.procs, p, Do(s, a).procs[p]);
    if !s.sh.closed && s.sh.conn.Some? && !AllPending(s.sh.pending) {
      HandedChan(s.chans, Do(s, a).procs, a.ch, Chan(s.sh.conn.value, a.id, Waiting, None, 0, 0));
    }
  }

  lemma RetireHanded(s: State, p: nat)
    requires Inv(s) && p in s.procs && (s.procs[p].Writing? || s.procs[p].Awaiting? || s.procs[p].Reader?)
    ensures var s' := RetireStep(s, p, s.procs[p].conn); Handed(s'.chans, s'.procs)
  {
    hide Owned, Mirrored, Handed, ChansOk, Lives, Pinned, WaitersOn;
    var c := s.procs[p].conn;
    WaitersWait(s.sh.pending, s.chans, c);
    HandedTake(s.chans, s.procs, p, WaitersOn(s.sh.pending, c), Retiring(c, WaitersOn(s.sh.pending, c)));
  }

  lemma CloseHanded(s: State, p: nat)
    requires Inv(s) && p !in s.procs
    ensures Handed(CloseStep(s, p).chans, CloseStep(s, p).procs)
  {
    hide Owned, Mirrored, Handed, ChansOk, Lives, Pinned, Waiters;
    if s.sh.closed {
      HandedElsewhere(s.chans, s.procs, p, Over);
    } else {
      WaitersWait(s.sh.pending, s.chans, 0);
      HandedTake(s.chans, s.procs, p, Waiters(s.sh.pending), CloseStep(s, p).procs[p]);
    }
  }

  lemma ReceiveHanded(s: State, p: nat)
    requires Inv(s) && Enabled(s, Receive(p))
    ensures Handed(Do(s, Receive(p)).chans, Do(s, Receive(p)).procs)
  {
    hide Owned, Mirrored, Handed, Lives, Pinned;
    var ch := s.procs[p].ch;
    assert ChanOk(s.chans[ch]);
    HandedChan(s.chans, s.procs, ch, s.chans[ch].(slot := None));
    HandedElsewhere(s.chans[ch := s.chans[ch].(slot := None)], s.procs, p, Over);
  }

  lemma CancelHanded(s: State, p: nat)
    requires Inv(s) && Enabled(s, Cancelled(p))
    ensures Handed(Do(s, Cancelled(p)).chans, Do(s, Cancelled(p)).procs)
  {
    hide Owned, Mirrored, Handed, ChansOk, Lives, Pinned;
    var c, id := s.procs[p].conn, s.procs[p].id;
    HandedElsewhere(s.chans, s.procs, p, Over);
    if IsPending(s.sh, c, id) {
      PendingChan(s, id);
      var ch := s.sh.pending[id].ch;
      HandedChan(s.chans, s.procs[p := Over], ch, s.chans[ch].(fate := Forgotten));
    }
  }

  lemma ReadHanded(s: State, p: nat, id: QueryId)
    requires Inv(s) && Enabled(s, ReadReply(p, id))
    ensures Handed(Do(s, ReadReply(p, id)).chans, Do(s, ReadReply(p, id)).procs)
  {
    hide Owned, Mirrored, Handed, ChansOk, Lives, Pinned;
    var c := s.procs[p].conn;
    if IsPending(s.sh, c, id) {
      PendingChan(s, id);
      var ch := s.sh.pending[id].ch;
      HandedTake(s.chans, s.procs, p, {ch}, Delivering(c, id, ch));
    }
  }

  lemma SendHanded(s: State, p: nat, ch: nat, v: Value, proc: Proc)
    requires Inv(s) && p in s.procs && ch in InHand(s.procs[p])
    requires InHand(proc) == InHand(s.procs[p]) - {ch} && !proc.Delivering?
    ensures ch in s.chans && Handed(SendTo(s, ch, v).chans, s.procs[p := proc])
  {
    hide Owned, Mirrored, Handed, Lives, Pinned;
    HandTaken(s, p, ch);
    assert ChanOk(s.chans[ch]);
    HandedSend(s.chans, s.procs, p, ch, Send(s.chans[ch], v), proc);
  }

  // ---------- one value per channel ----------

  lemma ChansKept(s: State, a: Action)
    requires Inv(s) && Enabled(s, a)
    ensures ChansOk(Do(s, a).chans)
  {
    hide WaitersOn, Waiters, Without, Take, Owned, Mirrored, Handed, Lives, FirstFree, AllPending, Pinned;
    match a {
      case WriteFails(p) => TakeOk(s, WaitersOn(s.sh.pending, s.procs[p].conn), p, s.procs[p].conn);
      case Deadline(p) => TakeOk(s, WaitersOn(s.sh.pending, s.procs[p].conn), p, s.procs[p].conn);
      case ReadFails(p) => TakeOk(s, WaitersOn(s.sh.pending, s.procs[p].conn), p, s.procs[p].conn);
      case BeginClose(p) => TakeOk(s, Waiters(s.sh.pending), p, 0);
      case ReadReply(p, id) =>
        if IsPending(s.sh, s.procs[p].conn, id) {
          PendingChan(s, id);
          TakeOneOk(s, s.sh.pending[id].ch, p);
        }
      case Cancelled(p) =>
        if IsPending(s.sh, s.procs[p].conn, s.procs[p].id) {
          PendingChan(s, s.procs[p].id);
        }
      case Deliver(p) =>
        HandTaken(s, p, s.procs[p].ch);
        DeliveryFits(s, p);
      case FailOne(p, ch) => HandTaken(s, p, ch);
      case _ =>
    }
  }

  lemma TakeOk(s: State, chs: set<nat>, p: nat, c: nat)
    requires Inv(s) && (chs == WaitersOn(s.sh.pending, c) || chs == Waiters(s.sh.pending))
    ensures ChansOk(Take(s.chans, chs, p))
  {
    hide Owned, Mirrored, Handed, Lives, Pinned;
    WaitersWait(s.sh.pending, s.chans, c);
  }

  lemma TakeOneOk(s: State, ch: nat, p: nat)
    requires Inv(s) && ch in s.chans && s.chans[ch].fate.Waiting?
    ensures ChansOk(Take(s.chans, {ch}, p))
  {
    hide Owned, Mirrored, Handed, Lives, Pinned;
  }

  lemma DeliveryFits(s: State, p: nat)
    requires Handed(s.chans, s.procs) && p in s.procs && s.procs[p].Delivering?
    ensures s.procs[p].ch in s.chans
    ensures s.chans[s.procs[p].ch].conn == s.procs[p].conn && s.chans[s.procs[p].ch].id == s.procs[p].id
  {
  }

  // ---------- queries and their channels ----------

  // Channels only ever change fate and slot.
  ghost predicate SameRegistrations(chans: map<nat, Chan>, chans': map<nat, Chan>) {
    forall ch :: ch in chans ==> ch in chans' && chans'[ch].conn == chans[ch].conn && chans'[ch].id == chans[ch].id
  }

  lemma OwnedElsewhere(chans: map<nat, Chan>, chans': map<nat, Chan>, procs: map<nat, Proc>, p: nat, proc: Proc)
    requires Owned(chans, procs) && SameRegistrations(chans, chans')
    requires Waits(proc) ==> p in procs && Waits(procs[p])
                             && proc.conn == procs[p].conn && proc.id == procs[p].id && proc.ch == procs[p].ch
    ensures Owned(chans', procs[p := proc])
  {
  }

  lemma OwnedRegister(chans: map<nat, Chan>, procs: map<nat, Proc>, p: nat, c: nat, id: QueryId, ch: nat)
    requires Owned(chans, procs) && ch !in chans && p in procs && !Waits(procs[p])
    ensures Owned(chans[ch := Chan(c, id, Waiting, None, 0, 0)], procs[p := Writing(c, id, ch)])
  {
  }

  lemma RegistrationsKept(s: State, a: Action)
    requires Inv(s) && Enabled(s, a)
    ensures SameRegistrations(s.chans, Do(s, a).chans)
  {
    hide Mirrored, Handed, ChansOk, Lives, Owned, Pinned, FirstFree, AllPending, WaitersOn, Waiters, Without;
  }

  lemma OwnedKept(s: State, a: Action)
    requires Inv(s) && Enabled(s, a)
    ensures Owned(Do(s, a).chans, Do(s, a).procs)
  {
    hide Mirrored, Handed, ChansOk, Lives, Owned, Pinned, FirstFree, AllPending, SameRegistrations, WaitersOn, Waiters;
    RegistrationsKept(s, a);
    match a {
      case TryRegister(p, id, ch) =>
        if Do(s, a).procs[p].Writing? {
          OwnedRegister(s.chans, s.procs, p, s.sh.conn.value, id, ch);
        } else {
          OwnedElsewhere(s.chans, s.chans, s.procs, p, Do(s, a).procs[p]);
        }
      case TryInstall(p, r) =>
        if !s.sh.closed && s.sh.conn.None? {
          OwnedElsewhere(s.chans, s.chans, s.procs, r, Reader(s.procs[p].spare));
          OwnedElsewhere(s.chans, s.chans, s.procs[r := Reader(s.procs[p].spare)], p, Registering);
        } else {
          OwnedElsewhere(s.chans, s.chans, s.procs, p, Do(s, a).procs[p]);
        }
      case ReadReply(p, id) =>
        if IsPending(s.sh, s.procs[p].conn, id) {
          OwnedElsewhere(s.chans, Do(s, a).chans, s.procs, p, Do(s, a).procs[p]);
        }
      case _ => OwnedElsewhere(s.chans, Do(s, a).chans, s.procs, a.p, Do(s, a).procs[a.p]);
    }
  }

  // ---------- connection lives ----------

  lemma LivesElsewhere(conns: map<nat, Life>, conn: Option<nat>, procs: map<nat, Proc>, p: nat, proc: Proc)
    requires Lives(conns, conn, procs) && LivesIn(conns, p, proc)
    requires p in procs && (procs[p].Dialed? || procs[p].Discarding?) ==>
               (proc.Dialed? || proc.Discarding?) && proc.spare == procs[p].spare
    requires p in procs ==> !procs[p].Retiring?
    ensures Lives(conns, conn, procs[p := proc])
  {
    forall c | c in conns ensures Accounted(procs[p := proc], conn, c, conns[c]) {
      assert Accounted(procs, conn, c, conns[c]);
    }
  }

  // c moves on to a later life, and p with it.
  lemma LivesMove(conns: map<nat, Life>, conn: Option<nat>, procs: map<nat, Proc>, c: nat, life: Life,
                  conn': Option<nat>, p: nat, proc: Proc)
    requires Lives(conns, conn, procs)
    requires c in conns ==> !conns[c].Dead? || life.Dead?
    requires c in conns && conns[c].HeldBy? ==> conns[c].dialer == p
    requires c in conns ==> !life.HeldBy?
    requires p in procs && (procs[p].Dialed? || procs[p].Discarding?) ==> procs[p].spare == c
    requires p in procs && procs[p].Retiring? ==> procs[p].conn == c
    requires life.InUse? ==> conn.None? && conn' == Some(c) && c in conns && conns[c].HeldBy?
    requires life.RetiredBy? || life.Dead? ==> conn' == (if conn == Some(c) then None else conn)
    requires life.Dead? ==> conn != Some(c)
    requires life.HeldBy? ==> conn' == conn
    requires LivesIn(conns[c := life], p, proc)
    requires Accounted(procs[p := proc], conn', c, life)
    ensures Lives(conns[c := life], conn', procs[p := proc])
  {
    var conns', procs' := conns[c := life], procs[p := proc];
    forall q | q in procs' ensures LivesIn(conns', q, procs'[q]) {
      if q != p {
        assert LivesIn(conns, q, procs[q]);
      }
    }
    forall d | d in conns' ensures Accounted(procs', conn', d, conns'[d]) {
      if d != c {
        assert Accounted(procs, conn, d, conns[d]);
      }
    }
  }

  lemma LivesRetire(s: State, p: nat)
    requires Inv(s) && p in s.procs && (s.procs[p].Writing? || s.procs[p].Awaiting? || s.procs[p].Reader?)
    ensures var s' := RetireStep(s, p, s.procs[p].conn); Lives(s'.conns, s'.sh.conn, s'.procs)
  {
    hide Owned, Mirrored, Handed, ChansOk, Pinned, WaitersOn, Without;
    var c := s.procs[p].conn;
    assert LivesIn(s.conns, p, s.procs[p]);
    assert Accounted(s.procs, s.sh.conn, c, s.conns[c]);
    var failed := WaitersOn(s.sh.pending, c);
    if s.sh.conn == Some(c) {
      LivesMove(s.conns, s.sh.conn, s.procs, c, RetiredBy(p), None, p, Retiring(c, failed));
    } else {
      LivesElsewhere(s.conns, s.sh.conn, s.procs, p, Retiring(c, failed));
    }
  }

  lemma LivesClose(s: State, p: nat)
    requires Inv(s) && p !in s.procs
    ensures var s' := CloseStep(s, p); Lives(s'.conns, s'.sh.conn, s'.procs)
  {
    hide Owned, Mirrored, Handed, ChansOk, Waiters;
    if s.sh.closed {
      LivesElsewhere(s.conns, s.sh.conn, s.procs, p, Over);
    } else {
      match s.sh.conn {
        case None => LivesElsewhere(s.conns, None, s.procs, p, Failing(Waiters(s.sh.pending)));
        case Some(c) =>
          LivesMove(s.conns, s.sh.conn, s.procs, c, RetiredBy(p), None, p, Retiring(c, Waiters(s.sh.pending)));
      }
    }
  }

  lemma LivesInstall(s: State, p: nat, r: nat)
    requires Inv(s) && Enabled(s, TryInstall(p, r))
    ensures var s' := Do(s, TryInstall(p, r)); Lives(s'.conns, s'.sh.conn, s'.procs)
  {
    hide Owned, Mirrored, Handed, ChansOk;
    var c := s.procs[p].spare;
    assert LivesIn(s.conns, p, s.procs[p]);
    if s.sh.closed || s.sh.conn.Some? {
      LivesElsewhere(s.conns, s.sh.conn, s.procs, p, Discarding(c, !s.sh.closed));
    } else {
      var conns := s.conns[c := InUse];
      LivesMove(s.conns, None, s.procs, c, InUse, Some(c), p, Registering);
      LivesElsewhere(conns, Some(c), s.procs[p := Registering], r, Reader(c));
      assert s.procs[p := Registering][r := Reader(c)] == s.procs[r := Reader(c)][p := Registering];
    }
  }

  lemma LivesKept(s: State, a: Action)
    requires Inv(s) && Enabled(s, a)
    ensures Lives(Do(s, a).conns, Do(s, a).sh.conn, Do(s, a).procs)
  {
    hide WaitersOn, Waiters, Without, Take, Send, Owned, Mirrored, Handed, ChansOk, FirstFree, AllPending, Pinned, Lives;
    match a {
      case DialOk(p, c) => LivesMove(s.conns, s.sh.conn, s.procs, c, HeldBy(p), s.sh.conn, p, Dialed(c));
      case TryInstall(p, r) => LivesInstall(s, p, r);
      case Discard(p) =>
        LifeOf(s, p);
        LivesMove(s.conns, s.sh.conn, s.procs, s.procs[p].spare, Dead, s.sh.conn, p, Do(s, a).procs[p]);
      case WriteFails(p) => LivesRetire(s, p);
      case Deadline(p) => LivesRetire(s, p);
      case ReadFails(p) => LivesRetire(s, p);
      case BeginClose(p) => LivesClose(s, p);
      case CloseSocket(p) =>
        LifeOf(s, p);
        LivesMove(s.conns, s.sh.conn, s.procs, s.procs[p].conn, Dead, s.sh.conn, p, Do(s, a).procs[p]);
      case ReadReply(p, id) =>
        LifeOf(s, p);
        if IsPending(s.sh, s.procs[p].conn, id) {
          LivesElsewhere(s.conns, s.sh.conn, s.procs, p, Do(s, a).procs[p]);
        }
      case NewQuery(p) => LivesElsewhere(s.conns, s.sh.conn, s.procs, p, Registering);
      case _ =>
        LifeOf(s, a.p);
        LivesElsewhere(s.conns, s.sh.conn, s.procs, a.p, Do(s, a).procs[a.p]);
    }
  }

  lemma LifeOf(s: State, p: nat)
    requires Lives(s.conns, s.sh.conn, s.procs) && p in s.procs
    ensures LivesIn(s.conns, p, s.procs[p])
    ensures s.sh.conn.Some? ==> s.sh.conn.value in s.conns && s.conns[s.sh.conn.value].InUse?
  {
  }

  // ---------- over whole runs ----------

  lemma StepKeepsInv(s: State, a: Action)
    requires Inv(s) && Enabled(s, a)
    ensures Inv(Do(s, a))
  {
    hide Pinned, Owned, Mirrored, Handed, ChansOk, Lives, Enabled, Do;
    OwnedKept(s, a);
    PinnedKept(s, a);
    MirroredKept(s, a);
    HandedKept(s, a);
    ChansKept(s, a);
    LivesKept(s, a);
  }

  lemma StepAt(run: seq<State>, j: nat) returns (a: Action)
    requires Run(run) && 0 < j < |run|
    ensures Enabled(run[j - 1], a) && run[j] == Do(run[j - 1], a)
  {
    hide Enabled, Do, Init;
    assert Step(run[j - 1], run[j - 1 + 1]);
    a :| Enabled(run[j - 1], a) && run[j] == Do(run[j - 1], a);
  }

  lemma InitInv(s: State)
    requires Init(s)
    ensures Inv(s)
  {
  }

  lemma RunStarts(run: seq<State>)
    requires Run(run)
    ensures Init(run[0])
  {
  }

  lemma {:induction false} RunInv(run: seq<State>, i: nat)
    requires Run(run) && i < |run|
    ensures Inv(run[i])
  {
    hide Run, Inv, Enabled, Do, Init;
    if i == 0 {
      RunStarts(run);
      InitInv(run[0]);
    } else {
      RunInv(run, i - 1);
      var a := StepAt(run, i);
      StepKeepsInv(run[i - 1], a);
    }
  }

  /** Every pending entry is pinned to the installed connection, and there is none when there is no connection. */
  lemma ReachablePinned(run: seq<State>, i: nat)
    requires Run(run) && i < |run|
    ensures forall id :: id in run[i].sh.pending ==> run[i].sh.conn == Some(run[i].sh.pending[id].conn)
    ensures run[i].sh.conn.None? ==> run[i].sh.pending == map[]
    ensures run[i].sh.closed ==> run[i].sh.conn.None?
  {
    hide Run, Mirrored, Handed, ChansOk, Lives, Owned;
    RunInv(run, i);
    if run[i].sh.conn.None? {
      assert forall id :: id !in run[i].sh.pending;
    }
  }

  /** A waiter's channel gets exactly one value once its entry was taken and sent to, none before, none after
      a forget; no send ever finds the slot full; a reply in it came from the connection and ID registered. */
  lemma EachWaiterGetsOneValue(run: seq<State>, i: nat, ch: nat)
    requires Run(run) && i < |run| && ch in run[i].chans
    ensures var c := run[i].chans[ch];
            && c.lost == 0
            && (c.fate.Sent? <==> c.sends == 1) && (!c.fate.Sent? <==> c.sends == 0)
            && (c.fate.Waiting? <==> c.id in run[i].sh.pending && run[i].sh.pending[c.id] == PendingQuery(c.conn, ch))
            && (c.slot.Some? ==> c.slot.value == NilReply || c.slot.value == Reply(c.conn, c.id))
  {
    hide Run, Handed, Lives, Owned, Pinned;
    RunInv(run, i);
    var c := run[i].chans[ch];
    assert ChanOk(c);
    if c.id in run[i].sh.pending && run[i].sh.pending[c.id] == PendingQuery(c.conn, ch) {
      PendingChan(run[i], c.id);
    }
  }

  /** A query that receives a reply receives one read from the connection it wrote to, under the ID it wrote. */
  lemma ReplyAnswersItsQuery(run: seq<State>, i: nat, p: nat)
    requires Run(run) && i < |run| && Enabled(run[i], Receive(p))
    ensures var q := run[i].procs[p];
            var v := run[i].chans[q.ch].slot.value;
            v == NilReply || v == Reply(q.conn, q.id)
  {
    hide Run, Handed, Lives, Mirrored, Pinned, ChansOk;
    RunInv(run, i);
    EachWaiterGetsOneValue(run, i, run[i].procs[p].ch);
  }

  // Channel ch waits for the reply to id on connection c.
  predicate WaitsFor(s: State, ch: nat, c: nat, id: QueryId) {
    ch in s.chans && s.chans[ch].fate.Waiting? && s.chans[ch].conn == c && s.chans[ch].id == id
  }

  /** A reply read on a connection is handed to the channel that waits for its ID there, if one does, and its send fills
      that channel; a reply nobody waits for changes nothing. */
  lemma ReplyIsHandedOver(run: seq<State>, i: nat, p: nat, id: QueryId, ch: nat)
    requires Run(run) && i < |run|
    ensures ProcOf(run[i], p).Reader? ==>
              var s, c, s' := run[i], run[i].procs[p].conn, Do(run[i], ReadReply(p, id));
              && (WaitsFor(s, ch, c, id) ==>
                    && s'.procs[p] == Delivering(c, id, ch)
                    && s'.chans == s.chans[ch := s.chans[ch].(fate := Taken(p))] && id !in s'.sh.pending)
              && ((forall other: nat :: !WaitsFor(s, other, c, id)) ==> s' == s)
    ensures ProcOf(run[i], p).Delivering? ==>
              var d := run[i].procs[p];
              && Enabled(run[i], Deliver(p))
              && Do(run[i], Deliver(p)).chans[d.ch].slot == Some(Reply(d.conn, d.id))
              && Do(run[i], Deliver(p)).procs[p] == Reader(d.conn)
  {
    hide Run, Lives, Owned, Pinned;
    RunInv(run, i);
    var s := run[i];
    if ProcOf(s, p).Reader? {
      if IsPending(s.sh, s.procs[p].conn, id) {
        PendingChan(s, id);
        assert WaitsFor(s, s.sh.pending[id].ch, s.procs[p].conn, id);
        TakeOne(s.chans, s.sh.pending[id].ch, p);
      }
    }
    if ProcOf(s, p).Delivering? {
      assert ChanOk(s.chans[s.procs[p].ch]);
    }
  }

  /** A query registers on an open connection under an ID nobody waits on, exactly when there is one. */
  lemma RegistrationAnswered(s: State, p: nat, id: QueryId, ch: nat)
    requires Enabled(s, TryRegister(p, id, ch))
    ensures var proc, sh := Do(s, TryRegister(p, id, ch)).procs[p], Do(s, TryRegister(p, id, ch)).sh;
            if s.sh.closed || (s.sh.conn.Some? && forall x: QueryId :: x in s.sh.pending) then proc == Over && sh == s.sh
            else if s.sh.conn.None? then proc == NeedConn && sh == s.sh
            else && proc == Writing(s.sh.conn.value, id, ch) && id !in s.sh.pending && ch !in s.chans
                 && sh.pending == s.sh.pending[id := PendingQuery(s.sh.conn.value, ch)]
                 && sh.conn == s.sh.conn && !sh.closed
  {
  }

  // A query on its way to its reply.
  predicate Asking(proc: Proc) {
    match proc
    case Registering => true
    case NeedConn => true
    case Dialing => true
    case Dialed(_) => true
    case Discarding(_, again) => again
    case Writing(_, _, _) => true
    case Awaiting(_, _, _) => true
    case _ => false
  }

  /** A query stops asking only for a reason of its own: its context ended, its dial failed, it has its value, its write
      failed or its deadline passed, all IDs are taken, or the object is closed. Losing the race to install a connection
      is none. */
  lemma StopsAskingOnlyFor(s: State, act: Action, p: nat)
    requires Enabled(s, act) && Asking(ProcOf(s, p)) && !Asking(ProcOf(Do(s, act), p))
    ensures act in {GiveUp(p), DialFails(p), DialCancelled(p), Receive(p), WriteFails(p), Deadline(p), Cancelled(p)}
            || s.sh.closed
            || (act.TryRegister? && s.sh.conn.Some? && forall x: QueryId :: x in s.sh.pending)
  {
    hide FirstFree, Take, WaitersOn, Without, Waiters;
  }

  /** A retired connection takes every waiter of its own, and no other, with it. */
  lemma RetirementTakesItsWaiters(run: seq<State>, i: nat, p: nat, act: Action, ch: nat)
    requires Run(run) && i < |run| && Enabled(run[i], act) && ch in run[i].chans
    requires act in {WriteFails(p), Deadline(p), ReadFails(p)}
    ensures var s, s' := run[i], Do(run[i], act);
            if s.chans[ch].fate.Waiting? && s.chans[ch].conn == s.procs[p].conn
            then s'.chans[ch].fate == Taken(p) && s.chans[ch].id !in s'.sh.pending
            else s'.chans[ch] == s.chans[ch]
  {
    hide Run, Lives, Owned, Pinned, Handed, ChansOk, FirstFree, AllPending;
    RunInv(run, i);
    var s := run[i];
    var c := s.procs[p].conn;
    if ch in WaitersOn(s.sh.pending, c) {
      var id :| id in s.sh.pending && s.sh.pending[id].conn == c && s.sh.pending[id].ch == ch;
      PendingChan(s, id);
    }
    assert s.chans[ch].fate.Waiting? && s.chans[ch].conn == c ==> ch in WaitersOn(s.sh.pending, c);
  }

  // ---------- lives over runs ----------

  function Rank(life: Life): nat {
    match life
    case HeldBy(_) => 0
    case InUse => 1
    case RetiredBy(_) => 2
    case Dead => 3
  }

  predicate Advanced(conns: map<nat, Life>, conns': map<nat, Life>, c: nat) {
    c in conns ==> c in conns' && Rank(conns[c]) <= Rank(conns'[c])
  }

  lemma AdvancedTwice(conns: map<nat, Life>, conns': map<nat, Life>, conns'': map<nat, Life>, c: nat)
    requires Advanced(conns, conns', c) && Advanced(conns', conns'', c)
    ensures Advanced(conns, conns'', c)
  {
  }

  lemma LivesAdvance(s: State, a: Action, c: nat)
    requires Inv(s) && Enabled(s, a)
    ensures Advanced(s.conns, Do(s, a).conns, c)
  {
    hide Mirrored, Handed, ChansOk, Owned, FirstFree, AllPending, Pinned, WaitersOn, Without, Waiters;
    if a.TryInstall? || a.Discard? {
      assert LivesIn(s.conns, a.p, s.procs[a.p]);
    }
  }

  lemma ClosedStays(s: State, a: Action)
    requires Enabled(s, a) && s.sh.closed
    ensures Do(s, a).sh.closed
  {
    hide Mirrored, Handed, ChansOk, Owned, FirstFree, AllPending, Pinned, WaitersOn, Without, Waiters;
  }

  lemma {:induction false} RunAdvances(run: seq<State>, i: nat, j: nat, c: nat)
    requires Run(run) && i <= j < |run|
    ensures Advanced(run[i].conns, run[j].conns, c)
    decreases j - i
  {
    if i < j {
      hide Run, Inv, Enabled, Do, Advanced;
      RunAdvances(run, i, j - 1, c);
      RunInv(run, j - 1);
      var a := StepAt(run, j);
      LivesAdvance(run[j - 1], a, c);
      AdvancedTwice(run[i].conns, run[j - 1].conns, run[j].conns, c);
    }
  }

  /** Every dialed connection is held by its dialer, installed, being retired, or closed, and never goes back:
      once retired it is never installed again; the installed one is the only one with that life. */
  lemma ConnectionsNeverReturn(run: seq<State>, i: nat, j: nat, c: nat)
    requires Run(run) && i <= j < |run| && c in run[i].conns
    ensures c in run[j].conns && (run[j].sh.conn == Some(c) <==> run[j].conns[c] == InUse)
    ensures Gone(run[i].conns, c) ==> Gone(run[j].conns, c) && run[j].sh.conn != Some(c)
    ensures run[j].conns[c].HeldBy? ==>
              var d := ProcOf(run[j], run[j].conns[c].dialer);
              d == Dialed(c) || (d.Discarding? && d.spare == c)
    ensures run[j].conns[c].RetiredBy? ==>
              var d := ProcOf(run[j], run[j].conns[c].owner);
              d.Retiring? && d.conn == c
  {
    hide Run, Mirrored, Handed, ChansOk, Owned, Pinned;
    RunAdvances(run, i, j, c);
    RunInv(run, j);
    assert Accounted(run[j].procs, run[j].sh.conn, c, run[j].conns[c]);
  }

  /** After close none is installed, nothing is pending, and every register fails. */
  lemma {:induction false} ClosedForGood(run: seq<State>, i: nat, j: nat, p: nat, id: QueryId, ch: nat)
    requires Run(run) && i <= j < |run| && run[i].sh.closed
    ensures run[j].sh.closed && run[j].sh.conn.None? && run[j].sh.pending == map[]
    ensures Enabled(run[j], TryRegister(p, id, ch)) ==>
              Do(run[j], TryRegister(p, id, ch)) == run[j].(procs := run[j].procs[p := Over])
    decreases j - i
  {
    hide Run, Inv, Enabled, Do;
    if i < j {
      ClosedForGood(run, i, j - 1, p, id, ch);
      var a := StepAt(run, j);
      ClosedStays(run[j - 1], a);
    }
    ReachablePinned(run, j);
    ClosedRegister(run[j], p, id, ch);
  }

  lemma ClosedRegister(s: State, p: nat, id: QueryId, ch: nat)
    requires s.sh.closed
    ensures Enabled(s, TryRegister(p, id, ch)) ==>
              Do(s, TryRegister(p, id, ch)) == s.(procs := s.procs[p := Over])
  {
    hide FirstFree, AllPending;
  }

  /** A cancelled query's forget leaves every other waiter alone exactly when its own entry is still there or its
      ID is free: forget compares the connection but not the channel, so an ID that was answered and has wrapped
      round to another query of the same connection takes that query's entry away. */
  lemma ForgetSparesOthers(s: State, p: nat)
    requires Inv(s) && Enabled(s, Cancelled(p))
    ensures var q := s.procs[p];
            (forall ch :: ch in s.chans && ch != q.ch ==> Do(s, Cancelled(p)).chans[ch] == s.chans[ch])
            <==> s.chans[q.ch].fate.Waiting? || q.id !in s.sh.pending || s.sh.pending[q.id].conn != q.conn
  {
    hide Handed, Lives, ChansOk, Pinned;
    var q := s.procs[p];
    if IsPending(s.sh, q.conn, q.id) {
      PendingChan(s, q.id);
    }
  }

  // ---------- a run in which forget hits a stranger ----------

  function Last(run: seq<State>): State
    requires run != []
  {
    run[|run| - 1]
  }

  lemma Extend(run: seq<State>, a: Action) returns (longer: seq<State>)
    requires run != [] && Run(run) && Enabled(Last(run), a)
    ensures longer != [] && Run(longer) && Last(longer) == Do(Last(run), a)
  {
    hide Init, Enabled, Do;
    longer := run + [Do(Last(run), a)];
    forall i | 0 <= i < |longer| - 1 ensures Step(longer[i], longer[i + 1]) {
      if i < |run| - 1 {
        assert Step(run[i], run[i + 1]);
      } else {
        assert longer[i] == Last(run) && Enabled(longer[i], a);
      }
    }
  }

  // Query 0 was answered under ID 1 but has not looked yet; the k-th query has come and gone.
  ghost predicate Answered(s: State, k: nat) {
    && s.sh == Shared(Some(0), map[], k % 0x10000, false)
    && 0 in s.procs && s.procs[0] == Awaiting(0, 1, 0)
    && 0 in s.chans && s.chans[0].fate == Sent(Reply(0, 1))
    && (forall p :: p in s.procs ==> p < k + 1)
    && (forall ch :: ch in s.chans ==> ch < k)
  }

  lemma FirstInstalled() returns (run: seq<State>)
    ensures run != [] && Run(run)
    ensures Last(run) == State(Shared(Some(0), map[], 0, false), map[], map[0 := InUse],
                               map[0 := Registering, 1 := Reader(0)])
  {
    hide Run, FirstFree, AllPending;
    run := [State(Shared(None, map[], 0, false), map[], map[], map[])];
    SingleRun(run[0]);
    run := Extend(run, NewQuery(0));
    run := Extend(run, TryRegister(0, 0, 0));
    run := Extend(run, CheckConn(0));
    run := Extend(run, DialOk(0, 0));
    run := Extend(run, TryInstall(0, 1));
  }

  lemma FirstAnswered() returns (run: seq<State>)
    ensures run != [] && Run(run) && Answered(Last(run), 1)
  {
    hide Run, FirstFree, AllPending, Answered;
    run := FirstInstalled();
    NextIsFree(map[], 0);
    run := Extend(run, TryRegister(0, 1, 0));
    run := Extend(run, WriteOk(0));
    assert Last(run).procs == map[0 := Awaiting(0, 1, 0), 1 := Reader(0)];
    assert Last(run).chans == map[0 := Chan(0, 1, Waiting, None, 0, 0)];
    assert Last(run).sh == Shared(Some(0), map[1 := PendingQuery(0, 0)], 1, false);
    run := ReplyArrives(run);
  }

  lemma ReplyArrives(run: seq<State>) returns (longer: seq<State>)
    requires run != [] && Run(run)
    requires Last(run).procs == map[0 := Awaiting(0, 1, 0), 1 := Reader(0)]
    requires Last(run).chans == map[0 := Chan(0, 1, Waiting, None, 0, 0)]
    requires Last(run).sh == Shared(Some(0), map[1 := PendingQuery(0, 0)], 1, false)
    ensures longer != [] && Run(longer) && Answered(Last(longer), 1)
  {
    hide Run, FirstFree, AllPending;
    longer := Extend(run, ReadReply(1, 1));
    longer := Extend(longer, Deliver(1));
    assert Last(longer).sh.pending == map[];
  }

  lemma SingleRun(s: State)
    requires Init(s)
    ensures Run([s])
  {
  }

  lemma NextIsFree(pending: map<QueryId, PendingQuery>, next: QueryId)
    requires pending == map[]
    ensures FirstFree(pending, next, Advance(next, 1)) && !AllPending(pending)
  {
    assert next !in pending;
  }

  lemma AnotherRegistered(run: seq<State>, k: nat) returns (longer: seq<State>)
    requires run != [] && Run(run) && Answered(Last(run), k) && k > 0
    ensures longer != [] && Run(longer)
    ensures var s, p, id := Last(run), k + 1, (k + 1) % 0x10000;
            Last(longer) == s.(sh := Shared(Some(0), map[id := PendingQuery(0, k)], id, false),
                               chans := s.chans[k := Chan(0, id, Waiting, None, 0, 0)],
                               procs := s.procs[p := Writing(0, id, k)])
  {
    hide Run, FirstFree, AllPending;
    NextIsFree(map[], k % 0x10000);
    longer := Extend(run, NewQuery(k + 1));
    longer := Extend(longer, TryRegister(k + 1, (k + 1) % 0x10000, k));
  }

  // One more query takes the next ID and is cancelled.
  lemma AnotherCancelled(run: seq<State>, k: nat) returns (longer: seq<State>)
    requires run != [] && Run(run) && Answered(Last(run), k) && k > 0
    ensures longer != [] && Run(longer) && Answered(Last(longer), k + 1)
  {
    hide Run, FirstFree, AllPending;
    longer := AnotherRegistered(run, k);
    longer := Extend(longer, WriteOk(k + 1));
    longer := Extend(longer, Cancelled(k + 1));
    assert Last(longer).sh.pending == map[];
  }

  lemma {:induction false} Cruise(run: seq<State>, k: nat, n: nat) returns (longer: seq<State>)
    requires run != [] && Run(run) && Answered(Last(run), k) && 0 < k <= n
    ensures longer != [] && Run(longer) && Answered(Last(longer), n)
    decreases n - k
  {
    hide Run, Answered;
    longer := run;
    if k < n {
      longer := AnotherCancelled(run, k);
      longer := Cruise(longer, k + 1, n);
    }
  }

  /** A reachable state in which query 0 is cancelled and forget removes the live entry of another query. */
  lemma ForgetHitsAStranger() returns (run: seq<State>, p: nat)
    ensures run != [] && Run(run) && Enabled(Last(run), Cancelled(0)) && p != 0 && ProcOf(Last(run), p).Writing?
    ensures var ch := Last(run).procs[p].ch;
            ch in Last(run).chans && Last(run).chans[ch].fate.Waiting?
            && Do(Last(run), Cancelled(0)).chans[ch].fate.Forgotten?
  {
    hide Run, FirstFree, AllPending;
    run := FirstAnswered();
    run := Cruise(run, 1, 0x10000);
    NextIsFree(map[], 0);
    p := 0x10001;
    run := Extend(run, NewQuery(p));
    run := Extend(run, TryRegister(p, 1, 0x10000));
  }
}
